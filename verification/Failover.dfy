/** Token-holder failover: each timeout suspends the current holder for the rest of the epoch. */
module Failover {
  import opened Bytes
  import opened Sorting
  import opened Types
  import opened Election
  import opened SingleWriter

  /** The timeout handler of scheduleFailoverTimerLocked, on the writer's value. */
  function Timeout(g: Group, w: Writer, members: seq<PeerId>, cap: nat, local: PeerId): (w': Writer)
    ensures w'.epoch == w.epoch && w'.proposals == w.proposals && w.suspended <= w'.suspended
    ensures local in w'.suspended ==> local in w.suspended
  {
    match CurrentHolder(g, w, members, cap)
    case Elected(h) => if w.proposals != [] && h != local && h != NO_PEER then w.(suspended := w.suspended + {h}) else w
    case _ => w
  }

  function After(g: Group, w: Writer, members: seq<PeerId>, cap: nat, local: PeerId, timeouts: nat): Writer
    decreases timeouts
  {
    if timeouts == 0 then w else After(g, Timeout(g, w, members, cap, local), members, cap, local, timeouts - 1)
  }

  /** Whom one timeout suspends, as a set of at most one peer. */
  function SuspendedBy(g: Group, w: Writer, members: seq<PeerId>, cap: nat, local: PeerId): set<PeerId> {
    Timeout(g, w, members, cap, local).suspended - w.suspended
  }

  ghost function Electable(g: Group, w: Writer, members: seq<PeerId>, cap: nat): set<PeerId> {
    EligibleSet(g, w.epoch, members, NextBatch(w.proposals, cap), w.suspended)
  }

  ghost function Ahead(g: Group, w: Writer, members: seq<PeerId>, cap: nat, local: PeerId): set<PeerId> {
    set q | q in Electable(g, w, members, cap) && Before(g, w.epoch, q, local)
  }

  /**
    * The conditions failover runs under: proposals wait, policy answers, the view is a sorted snapshot of real peers.
    */
  ghost predicate Waiting(g: Group, w: Writer, members: seq<PeerId>, cap: nat) {
    && w.proposals != []
    && StrictlySorted(Less, members) && NO_PEER !in members
    && PolicyAnswers(g, w.epoch, NextBatch(w.proposals, cap))
  }

  method FailoverTimeout(sw: SingleWriter, members: seq<PeerId>)
    requires sw.Valid()
    modifies sw
    ensures sw.Valid() && sw.State() == Timeout(sw.group, old(sw.State()), members, sw.cap, sw.local)
  {
    if |sw.proposals| > 0 {
      var r := sw.CurrentTokenHolder(members);
      if r.Elected? && r.holder != sw.local && r.holder != NO_PEER {
        sw.Suspend(r.holder);
      }
    }
  }

  /**
    * A timeout suspends exactly the first electable peer, if
    * proposals wait and it is a real peer other than the local node.
    */
  lemma TimeoutExactly(g: Group, w: Writer, members: seq<PeerId>, cap: nat, local: PeerId)
    requires StrictlySorted(Less, members)
    ensures forall h :: IsFirst(g, w.epoch, Electable(g, w, members, cap), h) ==>
              Timeout(g, w, members, cap, local) ==
                if w.proposals != [] && h != local && h != NO_PEER then w.(suspended := w.suspended + {h}) else w
    ensures (forall h :: !IsFirst(g, w.epoch, Electable(g, w, members, cap), h)) ==>
              Timeout(g, w, members, cap, local) == w
  {
    hide IsFirst;
    var batch := NextBatch(w.proposals, cap);
    forall h
      ensures CurrentHolder(g, w, members, cap) == Elected(h) <==> IsFirst(g, w.epoch, Electable(g, w, members, cap), h)
    {
      HolderIsFirst(g, w.epoch, members, batch, w.suspended, h);
      FirstNeedsPolicy(g, w, members, cap, h);
    }
  }

  lemma FirstNeedsPolicy(g: Group, w: Writer, members: seq<PeerId>, cap: nat, h: PeerId)
    ensures IsFirst(g, w.epoch, Electable(g, w, members, cap), h) ==>
              PolicyAnswers(g, w.epoch, NextBatch(w.proposals, cap))
  {
  }

  /** A timeout takes away the first electable peer, unless that is the local node. */
  lemma TimeoutTakesFirst(g: Group, w: Writer, members: seq<PeerId>, cap: nat, local: PeerId)
    requires Waiting(g, w, members, cap)
    ensures Waiting(g, Timeout(g, w, members, cap, local), members, cap)
    ensures Electable(g, Timeout(g, w, members, cap, local), members, cap) ==
            Electable(g, w, members, cap) - SuspendedBy(g, w, members, cap, local)
    ensures forall p :: p in SuspendedBy(g, w, members, cap, local) <==>
                        p != local && IsFirst(g, w.epoch, Electable(g, w, members, cap), p)
    ensures Electable(g, w, members, cap) == {} ==> Timeout(g, w, members, cap, local) == w
    ensures Timeout(g, w, members, cap, local).suspended == w.suspended + SuspendedBy(g, w, members, cap, local)
    ensures Ahead(g, Timeout(g, w, members, cap, local), members, cap, local) ==
            Ahead(g, w, members, cap, local) - SuspendedBy(g, w, members, cap, local)
  {
    forall p
      ensures CurrentHolder(g, w, members, cap) == Elected(p) <==> IsFirst(g, w.epoch, Electable(g, w, members, cap), p)
    {
      HolderIsFirst(g, w.epoch, members, NextBatch(w.proposals, cap), w.suspended, p);
    }
    HolderIsFirst(g, w.epoch, members, NextBatch(w.proposals, cap), w.suspended, NO_PEER);
    var c := CurrentHolder(g, w, members, cap);
    if c.Elected? {
      assert IsFirst(g, w.epoch, Electable(g, w, members, cap), c.holder);
    }
  }

  /** What holds after any number of timeouts. */
  lemma {:induction false} AfterKeeps(g: Group, w: Writer, members: seq<PeerId>, cap: nat, local: PeerId, k: nat)
    requires Waiting(g, w, members, cap)
    ensures Waiting(g, After(g, w, members, cap, local, k), members, cap)
    ensures After(g, w, members, cap, local, k).epoch == w.epoch
    ensures After(g, w, members, cap, local, k).proposals == w.proposals
    ensures Electable(g, After(g, w, members, cap, local, k), members, cap) <= Electable(g, w, members, cap)
    ensures w.suspended <= After(g, w, members, cap, local, k).suspended
    ensures local !in w.suspended ==> local !in After(g, w, members, cap, local, k).suspended
    decreases k
  {
    hide Timeout, Waiting, Electable;
    if k > 0 {
      TimeoutTakesFirst(g, w, members, cap, local);
      AfterKeeps(g, Timeout(g, w, members, cap, local), members, cap, local, k - 1);
    }
  }

  lemma {:induction false} AfterSplits(g: Group, w: Writer, members: seq<PeerId>, cap: nat, local: PeerId, i: nat,
                                       j: nat)
    ensures After(g, w, members, cap, local, i + j) ==
              After(g, After(g, w, members, cap, local, i), members, cap, local, j)
    decreases i
  {
    hide Timeout;
    if i > 0 {
      AfterSplits(g, Timeout(g, w, members, cap, local), members, cap, local, i - 1, j);
    }
  }

  /** Successive timeouts suspend peers in strictly increasing election order, nobody twice, never the local node. */
  lemma SuspensionsAscend(g: Group, w: Writer, members: seq<PeerId>, cap: nat, local: PeerId, i: nat, j: nat, p: PeerId,
                          q: PeerId)
    requires Waiting(g, w, members, cap)
    requires i < j
    requires p in SuspendedBy(g, After(g, w, members, cap, local, i), members, cap, local)
    requires q in SuspendedBy(g, After(g, w, members, cap, local, j), members, cap, local)
    ensures Before(g, w.epoch, p, q) && p != q && p != local && q != local
  {
    hide Timeout, Waiting, Electable, Before;
    var wi := After(g, w, members, cap, local, i);
    AfterKeeps(g, w, members, cap, local, i);
    TimeoutTakesFirst(g, wi, members, cap, local);
    var wi' := Timeout(g, wi, members, cap, local);
    AfterSplits(g, w, members, cap, local, i, 1 + (j - i - 1));
    assert After(g, wi, members, cap, local, j - i) == After(g, wi', members, cap, local, j - i - 1);
    AfterKeeps(g, wi', members, cap, local, j - i - 1);
    TimeoutTakesFirst(g, After(g, w, members, cap, local, j), members, cap, local);
    BeforeAsymmetric(g, w.epoch, p, q);
  }

  /** The local node is holder when nobody is ahead; otherwise one timeout suspends exactly one peer ahead. */
  lemma AheadDecides(g: Group, w: Writer, members: seq<PeerId>, cap: nat, local: PeerId)
    requires Waiting(g, w, members, cap)
    requires local in Electable(g, w, members, cap)
    ensures IsTokenHolder(g, w, members, cap, local) <==> Ahead(g, w, members, cap, local) == {}
    ensures Ahead(g, w, members, cap, local) == {} ==> Timeout(g, w, members, cap, local) == w
    ensures Ahead(g, w, members, cap, local) != {} ==>
            exists h :: SuspendedBy(g, w, members, cap, local) == {h} && h in Ahead(g, w, members, cap, local)
  {
    var batch := NextBatch(w.proposals, cap);
    var c := CurrentHolder(g, w, members, cap);
    HolderIsFirst(g, w.epoch, members, batch, w.suspended, local);
    assert c.Elected?;
    var h := c.holder;
    HolderIsFirst(g, w.epoch, members, batch, w.suspended, h);
    if h == local {
      forall q | q in Electable(g, w, members, cap)
        ensures !Before(g, w.epoch, q, local)
      {
        if q == local {
          LessIrreflexive(q);
          LessIrreflexive(TokenHash(g, w.epoch, q));
        } else {
          BeforeAsymmetric(g, w.epoch, local, q);
        }
      }
    } else {
      assert h in Ahead(g, w, members, cap, local);
      assert SuspendedBy(g, w, members, cap, local) == {h};
    }
  }

  /** One timeout moves exactly one peer from ahead of the local node into the suspensions. */
  lemma OneStepCloser(g: Group, w: Writer, members: seq<PeerId>, cap: nat, local: PeerId)
    requires Waiting(g, w, members, cap)
    requires local in Electable(g, w, members, cap)
    requires Ahead(g, w, members, cap, local) != {}
    ensures var w' := Timeout(g, w, members, cap, local);
            && Waiting(g, w', members, cap)
            && local in Electable(g, w', members, cap)
            && |Ahead(g, w', members, cap, local)| == |Ahead(g, w, members, cap, local)| - 1
            && w'.suspended + Ahead(g, w', members, cap, local) == w.suspended + Ahead(g, w, members, cap, local)
  {
    hide Timeout, Waiting, Electable, Ahead, IsTokenHolder, Before, IsFirst, SuspendedBy;
    AheadDecides(g, w, members, cap, local);
    TimeoutTakesFirst(g, w, members, cap, local);
    var ahead := Ahead(g, w, members, cap, local);
    var h :| SuspendedBy(g, w, members, cap, local) == {h} && h in ahead;
    assert Ahead(g, Timeout(g, w, members, cap, local), members, cap, local) == ahead - {h};
  }

  /**
    * An electable local node becomes holder after exactly as many timeouts as there are electable
    * peers ahead of it, having suspended exactly those.
    */
  lemma {:induction false} HolderAfterExactlyThoseAhead(g: Group, w: Writer, members: seq<PeerId>, cap: nat,
                                                        local: PeerId, k: nat)
    requires Waiting(g, w, members, cap)
    requires local in Electable(g, w, members, cap)
    ensures IsTokenHolder(g, After(g, w, members, cap, local, k), members, cap, local) <==>
            k >= |Ahead(g, w, members, cap, local)|
    ensures k >= |Ahead(g, w, members, cap, local)| ==>
            After(g, w, members, cap, local, k).suspended == w.suspended + Ahead(g, w, members, cap, local)
    decreases k
  {
    hide Timeout, Waiting, Electable, Ahead, IsTokenHolder;
    AheadDecides(g, w, members, cap, local);
    if Ahead(g, w, members, cap, local) == {} {
      StaysHolder(g, w, members, cap, local, k);
    } else if k > 0 {
      OneStepCloser(g, w, members, cap, local);
      HolderAfterExactlyThoseAhead(g, Timeout(g, w, members, cap, local), members, cap, local, k - 1);
    }
  }

  lemma {:induction false} StaysHolder(g: Group, w: Writer, members: seq<PeerId>, cap: nat, local: PeerId, k: nat)
    requires Timeout(g, w, members, cap, local) == w
    ensures After(g, w, members, cap, local, k) == w
    decreases k
  {
    hide Timeout;
    if k > 0 {
      StaysHolder(g, w, members, cap, local, k - 1);
    }
  }

  lemma BystanderDecides(g: Group, w: Writer, members: seq<PeerId>, cap: nat, local: PeerId)
    requires Waiting(g, w, members, cap)
    requires local !in Electable(g, w, members, cap)
    ensures CurrentHolder(g, w, members, cap) == NoActiveView <==> Electable(g, w, members, cap) == {}
    ensures Electable(g, w, members, cap) == {} ==> Timeout(g, w, members, cap, local) == w
    ensures Electable(g, w, members, cap) != {} ==>
            exists h :: SuspendedBy(g, w, members, cap, local) == {h} && h in Electable(g, w, members, cap)
  {
    HolderIsFirst(g, w.epoch, members, NextBatch(w.proposals, cap), w.suspended, local);
    var c := CurrentHolder(g, w, members, cap);
    if c.Elected? {
      HolderIsFirst(g, w.epoch, members, NextBatch(w.proposals, cap), w.suspended, c.holder);
      assert SuspendedBy(g, w, members, cap, local) == {c.holder};
    }
  }

  lemma BystanderStep(g: Group, w: Writer, members: seq<PeerId>, cap: nat, local: PeerId)
    requires Waiting(g, w, members, cap)
    requires local !in Electable(g, w, members, cap)
    requires Electable(g, w, members, cap) != {}
    ensures var w' := Timeout(g, w, members, cap, local);
            && Waiting(g, w', members, cap)
            && local !in Electable(g, w', members, cap)
            && |Electable(g, w', members, cap)| == |Electable(g, w, members, cap)| - 1
            && w'.suspended + Electable(g, w', members, cap) == w.suspended + Electable(g, w, members, cap)
  {
    hide Timeout, Waiting, Electable, Ahead, CurrentHolder, Before, IsFirst, SuspendedBy;
    BystanderDecides(g, w, members, cap, local);
    TimeoutTakesFirst(g, w, members, cap, local);
    var e := Electable(g, w, members, cap);
    var h :| SuspendedBy(g, w, members, cap, local) == {h} && h in e;
    assert Electable(g, Timeout(g, w, members, cap, local), members, cap) == e - {h};
  }

  /** A local node that may not hold sees every electable peer suspended, one timeout each, and then no holder. */
  lemma {:induction false} BystanderExhausts(g: Group, w: Writer, members: seq<PeerId>, cap: nat, local: PeerId, k: nat)
    requires Waiting(g, w, members, cap)
    requires local !in Electable(g, w, members, cap)
    ensures CurrentHolder(g, After(g, w, members, cap, local, k), members, cap) == NoActiveView <==>
            k >= |Electable(g, w, members, cap)|
    ensures k >= |Electable(g, w, members, cap)| ==>
            After(g, w, members, cap, local, k).suspended == w.suspended + Electable(g, w, members, cap)
    decreases k
  {
    hide Timeout, Waiting, Electable, CurrentHolder;
    BystanderDecides(g, w, members, cap, local);
    if Electable(g, w, members, cap) == {} {
      StaysHolder(g, w, members, cap, local, k);
    } else if k > 0 {
      BystanderStep(g, w, members, cap, local);
      BystanderExhausts(g, Timeout(g, w, members, cap, local), members, cap, local, k - 1);
    }
  }
}
