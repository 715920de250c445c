/** What a fork detector knows after any sequence of calls, said by looking back at the calls. */
module DetectorRuns {
  import opened Bytes
  import opened Types
  import opened ForkDetector

  datatype Call =
    | Update(ann: Announcement)
    | Hear(at: int, from: PeerId, ann: Announcement)
    | MarkInvalid(hash: Bytes)
    | Reset

  function Step(d: Detector, c: Call): Detector {
    match c
    case Update(ann) => Updated(d, ann)
    case Hear(at, from, ann) => Observed(d, at, from, ann)
    case MarkInvalid(hash) => if hash == [] then d else d.(invalid := d.invalid + {hash})
    case Reset => d.(known := map[])
  }

  /** A fresh detector after these calls. */
  function After(calls: seq<Call>): Detector {
    if calls == [] then Detector(None, map[], {}) else Step(After(calls[..|calls| - 1]), calls[|calls| - 1])
  }

  /** The node's own announcement: the last one it was given. */
  ghost function Latest(calls: seq<Call>): Option<Announcement> {
    if calls == [] then None
    else if calls[|calls| - 1].Update? then Some(calls[|calls| - 1].ann)
    else Latest(calls[..|calls| - 1])
  }

  /** Branches are forgotten on a reset and when the node's own epoch rises. */
  ghost predicate Forgets(calls: seq<Call>, k: nat) {
    && k < |calls|
    && var own := Latest(calls[..k]);
    calls[k].Reset? || (calls[k].Update? && own.Some? && calls[k].ann.epoch > own.value.epoch)
  }

  /**
    * The k-th call is an announcement of the branch that still
    * counts: the node had its own, and nothing was forgotten since.
    */
  ghost predicate Counts(calls: seq<Call>, k: nat, h: Bytes) {
    && k < |calls| && calls[k].Hear? && calls[k].ann.historyHash == h && Latest(calls[..k]).Some?
    && Unforgotten(calls, k)
  }

  ghost predicate Unforgotten(calls: seq<Call>, k: nat) {
    forall j :: k < j < |calls| ==> !Forgets(calls, j)
  }

  /** What is known of a branch: every peer that announced it and still counts, the first time and the last words. */
  ghost predicate Known(calls: seq<Call>, h: Bytes, info: BranchInfo, first: nat, last: nat) {
    && Counts(calls, first, h) && Counts(calls, last, h)
    && (forall k: nat :: Counts(calls, k, h) ==> first <= k <= last)
    && info.firstSeenAt == calls[first].at && info.announcement == calls[last].ann
    && (forall p :: p in info.peers <==> exists k: nat :: Counts(calls, k, h) && calls[k].from == p)
  }

  lemma {:induction false} LocalIsLatest(calls: seq<Call>)
    ensures After(calls).local == Latest(calls)
  {
    if calls != [] {
      LocalIsLatest(calls[..|calls| - 1]);
    }
  }

  lemma PrefixForgets(calls: seq<Call>, c: Call, k: nat)
    requires k < |calls|
    ensures Forgets(calls + [c], k) <==> Forgets(calls, k)
    ensures Latest((calls + [c])[..k]) == Latest(calls[..k])
  {
    assert (calls + [c])[..k] == calls[..k];
  }

  /** One more call: what counted counts on, unless it forgets; and it counts itself, if it announces the branch. */
  lemma CountsMore(calls: seq<Call>, c: Call, k: nat, h: Bytes)
    ensures Counts(calls + [c], k, h) <==>
            if k == |calls| then c.Hear? && c.ann.historyHash == h && Latest(calls).Some?
            else Counts(calls, k, h) && !Forgets(calls + [c], |calls|)
  {
    hide Forgets, Latest, Unforgotten;
    var more := calls + [c];
    assert more[..|calls|] == calls;
    if k < |calls| {
      assert more[k] == calls[k];
      PrefixForgets(calls, c, k);
      UnforgottenMore(calls, c, k);
    } else if k == |calls| {
      UnforgottenLast(more, k);
    }
  }

  lemma UnforgottenMore(calls: seq<Call>, c: Call, k: nat)
    requires k < |calls|
    ensures Unforgotten(calls + [c], k) <==> Unforgotten(calls, k) && !Forgets(calls + [c], |calls|)
  {
    hide Forgets, Latest;
    var more := calls + [c];
    forall j | k < j < |calls|
      ensures Forgets(more, j) <==> Forgets(calls, j)
    {
      PrefixForgets(calls, c, j);
    }
    if Unforgotten(calls, k) && !Forgets(more, |calls|) {
      forall j | k < j < |more|
        ensures !Forgets(more, j)
      {
        assert j == |calls| || !Forgets(calls, j);
      }
    }
    if Unforgotten(more, k) {
      forall j | k < j < |calls|
        ensures !Forgets(calls, j)
      {
        assert !Forgets(more, j);
      }
    }
  }

  lemma UnforgottenLast(calls: seq<Call>, k: nat)
    requires k == |calls| - 1
    ensures Unforgotten(calls, k)
  {
  }

  /** After any calls: a branch is known exactly if some announcement of it still counts, and then as those say. */
  lemma {:induction false} KnownExactly(calls: seq<Call>, h: Bytes)
    ensures h in After(calls).known <==> exists k: nat :: Counts(calls, k, h)
    ensures h in After(calls).known ==> exists first, last :: Known(calls, h, After(calls).known[h], first, last)
  {
    hide Counts, Known, Forgets, Latest;
    if calls == [] {
      NothingCounts(h);
    } else {
      var init, c := calls[..|calls| - 1], calls[|calls| - 1];
      assert calls == init + [c];
      KnownExactly(init, h);
      LocalIsLatest(init);
      ForgetsMeans(init, c);
      forall k: nat
        ensures Counts(calls, k, h) <==>
                if k == |init| then c.Hear? && c.ann.historyHash == h && Latest(init).Some?
                else Counts(init, k, h) && !Forgets(calls, |init|)
      {
        CountsMore(init, c, k, h);
      }
      if h in After(calls).known {
        KnownStep(init, c, h);
      } else if Forgets(calls, |init|) {
        assert forall k: nat :: Counts(calls, k, h) ==> k == |init|;
      }
    }
  }

  lemma NothingCounts(h: Bytes)
    ensures forall k: nat :: !Counts([], k, h)
  {
  }

  lemma ForgetsMeans(init: seq<Call>, c: Call)
    ensures Forgets(init + [c], |init|) <==>
            c.Reset? || (c.Update? && Latest(init).Some? && c.ann.epoch > Latest(init).value.epoch)
  {
    hide Latest;
    assert (init + [c])[..|init|] == init;
  }

  lemma KnownStep(init: seq<Call>, c: Call, h: Bytes)
    requires After(init).local == Latest(init) && h in After(init + [c]).known
    requires h in After(init).known <==> exists k: nat :: Counts(init, k, h)
    requires h in After(init).known ==> exists first, last :: Known(init, h, After(init).known[h], first, last)
    ensures exists first, last :: Known(init + [c], h, After(init + [c]).known[h], first, last)
    ensures exists k: nat :: Counts(init + [c], k, h)
  {
    hide Counts, Forgets, Latest, Known;
    var calls := init + [c];
    assert calls[..|init|] == init;
    ForgetsMeans(init, c);
    if c.Hear? && c.ann.historyHash == h && Latest(init).Some? {
      if h in After(init).known {
        var first, last :| Known(init, h, After(init).known[h], first, last);
        HeardAgain(init, c, h, first, last);
        KnownCounts(calls, h, first, |init|);
      } else {
        HeardFirst(init, c, h);
        KnownCounts(calls, h, |init|, |init|);
      }
    } else {
      var first, last :| Known(init, h, After(init).known[h], first, last);
      KnownOn(init, c, h, first, last);
      KnownCounts(calls, h, first, last);
    }
  }

  lemma KnownCounts(calls: seq<Call>, h: Bytes, first: nat, last: nat)
    requires h in After(calls).known && Known(calls, h, After(calls).known[h], first, last)
    ensures Counts(calls, first, h)
  {
    hide Counts;
  }

  lemma HeardFirst(init: seq<Call>, c: Call, h: Bytes)
    requires c.Hear? && c.ann.historyHash == h && Latest(init).Some? && After(init).local == Latest(init)
    requires h !in After(init).known && forall k: nat :: !Counts(init, k, h)
    ensures h in After(init + [c]).known && Known(init + [c], h, After(init + [c]).known[h], |init|, |init|)
  {
    hide Counts, Forgets, Latest;
    var calls := init + [c];
    assert calls[..|init|] == init;
    forall k: nat
      ensures Counts(calls, k, h) <==> k == |init|
    {
      CountsMore(init, c, k, h);
    }
  }

  lemma HeardAgain(init: seq<Call>, c: Call, h: Bytes, first: nat, last: nat)
    requires c.Hear? && c.ann.historyHash == h && Latest(init).Some? && After(init).local == Latest(init)
    requires h in After(init).known && Known(init, h, After(init).known[h], first, last)
    ensures h in After(init + [c]).known && Known(init + [c], h, After(init + [c]).known[h], first, |init|)
  {
    hide Counts, Forgets, Latest;
    var calls := init + [c];
    assert calls[..|init|] == init;
    ForgetsMeans(init, c);
    forall k: nat
      ensures Counts(calls, k, h) <==> k == |init| || Counts(init, k, h)
      ensures Counts(init, k, h) ==> k < |init| && calls[k] == init[k] && init[k].Hear?
    {
      CountsMore(init, c, k, h);
      CountsInside(init, k, h);
    }
    PeersGrow(init, c, h, After(init).known[h], After(calls).known[h]);
  }

  lemma CountsInside(calls: seq<Call>, k: nat, h: Bytes)
    ensures Counts(calls, k, h) ==> k < |calls| && calls[k].Hear?
  {
  }

  lemma PeersGrow(init: seq<Call>, c: Call, h: Bytes, before: BranchInfo, after: BranchInfo)
    requires c.Hear? && after.peers == before.peers + {c.from}
    requires forall k: nat :: Counts(init, k, h) ==> k < |init| && init[k].Hear?
    requires forall k: nat :: Counts(init + [c], k, h) ==> k < |init| + 1 && (init + [c])[k].Hear?
    requires forall k: nat :: Counts(init + [c], k, h) <==> k == |init| || Counts(init, k, h)
    requires forall p :: p in before.peers <==> exists k: nat :: Counts(init, k, h) && init[k].from == p
    ensures forall p :: p in after.peers <==> exists k: nat :: Counts(init + [c], k, h) && (init + [c])[k].from == p
  {
    hide Counts;
    var calls := init + [c];
    forall p
      ensures p in after.peers <==> exists k: nat :: Counts(calls, k, h) && calls[k].from == p
    {
      if p == c.from {
        assert Counts(calls, |init|, h) && calls[|init|].from == p;
      }
      if p in before.peers {
        var k: nat :| Counts(init, k, h) && init[k].from == p;
        assert Counts(calls, k, h) && calls[k].from == p;
      }
      if k: nat :| Counts(calls, k, h) && calls[k].from == p {
        assert k == |init| || init[k].from == p;
      }
    }
  }

  lemma KnownOn(init: seq<Call>, c: Call, h: Bytes, first: nat, last: nat)
    requires After(init).local == Latest(init) && h in After(init).known && h in After(init + [c]).known
    requires Known(init, h, After(init).known[h], first, last)
    requires !(c.Hear? && c.ann.historyHash == h && Latest(init).Some?)
    ensures Known(init + [c], h, After(init + [c]).known[h], first, last)
  {
    hide Counts, Forgets, Latest;
    var calls := init + [c];
    assert calls[..|init|] == init;
    ForgetsMeans(init, c);
    forall k: nat
      ensures Counts(calls, k, h) <==> Counts(init, k, h)
      ensures Counts(init, k, h) ==> k < |init| && calls[k] == init[k] && init[k].Hear?
    {
      CountsMore(init, c, k, h);
      CountsInside(init, k, h);
    }
  }

  /** The hashes held invalid are the non-empty ones that were marked, whatever was forgotten since. */
  lemma {:induction false} InvalidExactly(calls: seq<Call>, hash: Bytes)
    ensures hash in After(calls).invalid <==> hash != [] && MarkInvalid(hash) in calls
  {
    if calls != [] {
      var init, c := calls[..|calls| - 1], calls[|calls| - 1];
      assert calls == init + [c];
      InvalidExactly(init, hash);
    }
  }

  /**
    * The weight of a branch in the eyes of a detector: who announced
    * it, this many more, and whether its commit was marked.
    */
  ghost function Weighed(calls: seq<Call>, ann: Announcement, more: nat): Weight {
    WeightOf(ann, more + |Filed(After(calls), ann.historyHash)|,
             ann.commitHash != [] && MarkInvalid(ann.commitHash) in calls)
  }

  /**
    * After any calls, an announcement of another branch is judged
    * by weight: the node stays exactly if its own branch outweighs.
    */
  lemma VerdictExactly(calls: seq<Call>, at: int, from: PeerId, ann: Announcement)
    requires Latest(calls).Some? && !SameBranch(Latest(calls).value, ann)
    ensures After(calls).local == Latest(calls)
    ensures var own, heard := Latest(calls).value, calls + [Hear(at, from, ann)];
            Verdict(After(calls), at, from, ann) ==
              if Outweighs(Weighed(heard, own, 1), Weighed(heard, ann, 0)) then BranchLocal else BranchRemote
  {
    hide Outweighs, Compare;
    var own, d := Latest(calls).value, After(calls);
    var heard := calls + [Hear(at, from, ann)];
    LocalIsLatest(calls);
    assert heard[..|calls|] == calls;
    var d' := Observed(d, at, from, ann);
    assert After(heard) == d';
    InvalidExactly(calls, own.commitHash);
    InvalidExactly(calls, ann.commitHash);
    CompareByWeight(own, ann, Support(d', own), |d'.known[ann.historyHash].peers|,
                    KnownInvalid(d, own.commitHash), KnownInvalid(d, ann.commitHash));
  }
}
