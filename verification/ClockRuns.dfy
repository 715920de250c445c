/** Runs of many hybrid clocks exchanging timestamps: the clock condition and the drift bound. */
module ClockRuns {
  import opened Bytes
  import opened Types
  import opened HybridClock

  /**
    * `Send` stamps with Now; `Receive` merges the stamp of an earlier `Send`, any number of times, in any order. The
    * clock is not stored, so `Restart` sets it to zero; the physical readings of that moment play no part in it.
    */
  datatype Event =
    | Send(node: Bytes, pt: int, pt2: int)
    | Receive(node: Bytes, pt: int, pt2: int, source: nat)
    | Restart(node: Bytes, pt: int, pt2: int)

  /** Each node's clock, and each event's stamp; a refused receive has none. */
  datatype World = World(clocks: map<Bytes, Clock>, stamps: seq<Option<Clock>>)

  function ClockOf(w: World, node: Bytes): Clock {
    if node in w.clocks then w.clocks[node] else ZERO
  }

  /** Receives only take what some Send has stamped. */
  ghost predicate WellFormed(run: seq<Event>) {
    forall i :: 0 <= i < |run| && run[i].Receive? ==> run[i].source < i && run[run[i].source].Send?
  }

  function Step(w: World, e: Event): World {
    var h := ClockOf(w, e.node);
    match e
    case Send(_, pt, pt2) => Record(w, e.node, Some(Ticked(h, pt, pt2)))
    case Receive(_, pt, pt2, source) =>
      if source < |w.stamps| && w.stamps[source].Some? then
        Record(w, e.node, Merged(h, w.stamps[source].value.l, w.stamps[source].value.c, pt, pt2))
      else Record(w, e.node, None)
    case Restart(_, _, _) => World(w.clocks[e.node := ZERO], w.stamps + [None])
  }

  function Record(w: World, node: Bytes, stamp: Option<Clock>): World {
    World(if stamp.Some? then w.clocks[node := stamp.value] else w.clocks, w.stamps + [stamp])
  }

  function Exec(run: seq<Event>): (w: World)
    ensures |w.stamps| == |run|
  {
    if run == [] then World(map[], []) else Step(Exec(run[..|run| - 1]), run[|run| - 1])
  }

  const READING_LIMIT := 0x4000_0000_0000_0000

  /** Physical readings are non-negative and far from the end of int64, and so is the number of events. */
  ghost predicate SaneReadings(run: seq<Event>) {
    |run| < READING_LIMIT &&
    forall i :: 0 <= i < |run| ==> 0 <= run[i].pt < READING_LIMIT && 0 <= run[i].pt2 < READING_LIMIT
  }

  // ----- no machine arithmetic ever wraps -----

  ghost predicate ClockInRange(h: Clock, k: nat) {
    0 <= h.l <= READING_LIMIT + k && h.c <= COUNTER_MAX
  }

  /** Node by node and stamp by stamp: in range, and sent counters stay below the largest uint32. */
  ghost predicate InRange(run: seq<Event>, w: World)
    requires |w.stamps| == |run|
  {
    && (forall n :: n in w.clocks ==> ClockInRange(w.clocks[n], |run|))
    && (forall i :: 0 <= i < |run| && w.stamps[i].Some? ==> ClockInRange(w.stamps[i].value, |run|))
    && (forall i :: 0 <= i < |run| && run[i].Send? ==> w.stamps[i].Some? && w.stamps[i].value.c <= COUNTER_GUARD)
  }

  lemma TickedInRange(h: Clock, k: nat, pt: int, pt2: int)
    requires ClockInRange(h, k) && k + 1 < READING_LIMIT && 0 <= pt < READING_LIMIT && 0 <= pt2 < READING_LIMIT
    ensures ClockInRange(Ticked(h, pt, pt2), k + 1)
    ensures Ticked(h, pt, pt2).c <= COUNTER_GUARD
    ensures Earlier(h, Ticked(h, pt, pt2))
  {
  }

  lemma MergedInRange(h: Clock, m: Clock, k: nat, pt: int, pt2: int)
    requires ClockInRange(h, k) && ClockInRange(m, k) && m.c <= COUNTER_GUARD
    requires k + 1 < READING_LIMIT && 0 <= pt < READING_LIMIT && 0 <= pt2 < READING_LIMIT
    ensures var r := Merged(h, m.l, m.c, pt, pt2);
            r.Some? ==> ClockInRange(r.value, k + 1) && Earlier(h, r.value) && Earlier(m, r.value)
  {
  }

  lemma RecordInRange(init: seq<Event>, w: World, e: Event, stamp: Option<Clock>)
    requires |w.stamps| == |init| && InRange(init, w)
    requires stamp.Some? ==> ClockInRange(stamp.value, |init| + 1)
    requires e.Send? ==> stamp.Some? && stamp.value.c <= COUNTER_GUARD
    ensures InRange(init + [e], Record(w, e.node, stamp))
  {
  }

  lemma RestartInRange(init: seq<Event>, w: World, e: Event)
    requires |w.stamps| == |init| && InRange(init, w) && e.Restart?
    ensures InRange(init + [e], Step(w, e))
  {
  }

  lemma SendInRange(init: seq<Event>, w: World, e: Event)
    requires |w.stamps| == |init| && InRange(init, w) && e.Send?
    requires |init| + 1 < READING_LIMIT && 0 <= e.pt < READING_LIMIT && 0 <= e.pt2 < READING_LIMIT
    ensures InRange(init + [e], Step(w, e))
  {
    hide Ticked;
    var h := ClockOf(w, e.node);
    TickedInRange(h, |init|, e.pt, e.pt2);
    RecordInRange(init, w, e, Some(Ticked(h, e.pt, e.pt2)));
  }

  lemma ReceiveInRange(init: seq<Event>, w: World, e: Event)
    requires |w.stamps| == |init| && InRange(init, w) && e.Receive? && e.source < |init| && init[e.source].Send?
    requires |init| + 1 < READING_LIMIT && 0 <= e.pt < READING_LIMIT && 0 <= e.pt2 < READING_LIMIT
    ensures InRange(init + [e], Step(w, e))
  {
    hide Merged;
    var h, m := ClockOf(w, e.node), w.stamps[e.source].value;
    MergedInRange(h, m, |init|, e.pt, e.pt2);
    RecordInRange(init, w, e, Merged(h, m.l, m.c, e.pt, e.pt2));
  }

  /** Clocks and stamps stay in range along a run. */
  lemma {:induction false} RangesHold(run: seq<Event>)
    requires WellFormed(run) && SaneReadings(run)
    ensures InRange(run, Exec(run))
  {
    hide InRange, Step;
    if run == [] {
      EmptyInRange();
    } else {
      var init, e := run[..|run| - 1], run[|run| - 1];
      assert run == init + [e];
      SanePrefix(run, |run| - 1);
      RangesHold(init);
      match e
      case Send(_, _, _) => SendInRange(init, Exec(init), e);
      case Receive(_, _, _, source) =>
        assert run[source] == init[source];
        ReceiveInRange(init, Exec(init), e);
      case Restart(_, _, _) => RestartInRange(init, Exec(init), e);
    }
  }

  lemma EmptyInRange()
    ensures InRange([], Exec([]))
  {
  }

  /** Every argument that Now hands to machine arithmetic is its own result. */
  ghost predicate TickExact(h: Clock, pt: int, pt2: int) {
    pt <= h.l ==> if h.c >= COUNTER_GUARD then WrapI64(h.l + 1) == h.l + 1 else WrapU32(h.c + 1) == h.c + 1
  }

  ghost predicate JoinExact(h: Clock, wall: int, counter: nat, pt: int) {
    var newL := Max(Max(h.l, wall), pt);
    && (newL == h.l && newL == wall ==> WrapU32(Max(h.c, counter) + 1) == Max(h.c, counter) + 1)
    && (newL == h.l && newL != wall ==> WrapU32(h.c + 1) == h.c + 1)
    && (newL != h.l && newL == wall ==> WrapU32(counter + 1) == counter + 1)
  }

  /** The same for Update: the drift test, the overflow guard and the merge. */
  ghost predicate MergeExact(h: Clock, wall: int, counter: nat, pt: int, pt2: int) {
    && WrapI64(wall - pt) == wall - pt
    && (!DriftTooLarge(wall, pt) ==>
          if h.c >= COUNTER_GUARD then WrapI64(h.l + 1) == h.l + 1 && JoinExact(Bumped(h, pt2), wall, counter, pt2)
          else JoinExact(h, wall, counter, pt))
  }

  ghost predicate EventExact(w: World, e: Event) {
    var h := ClockOf(w, e.node);
    match e
    case Send(_, pt, pt2) => TickExact(h, pt, pt2)
    case Receive(_, pt, pt2, source) =>
      source < |w.stamps| && w.stamps[source].Some? ==>
        MergeExact(h, w.stamps[source].value.l, w.stamps[source].value.c, pt, pt2)
    case Restart(_, _, _) => true
  }

  /** In a run whose receives take what some Now has stamped, no counter and no wall component ever wraps. */
  lemma NothingWraps(run: seq<Event>, i: nat)
    requires WellFormed(run) && SaneReadings(run) && i < |run|
    ensures EventExact(Exec(run[..i]), run[i])
  {
    var init, e := run[..i], run[i];
    SanePrefix(run, i);
    RangesHold(init);
    var w := Exec(init);
    if e.Receive? {
      assert run[e.source] == init[e.source];
    }
  }

  // ----- the clock condition -----

  /** The node of event `e` does not restart between `e` and `f`. */
  ghost predicate Unbroken(run: seq<Event>, e: nat, f: nat)
    requires e < f <= |run|
  {
    forall k :: e < k < f && run[k].node == run[e].node ==> !run[k].Restart?
  }

  /** A node's clock is never behind anything the node has stamped since it last started. */
  ghost predicate ClocksLead(run: seq<Event>, w: World)
    requires |w.stamps| == |run|
  {
    forall i :: 0 <= i < |run| && w.stamps[i].Some? && Unbroken(run, i, |run|) ==>
      run[i].node in w.clocks && !Earlier(w.clocks[run[i].node], w.stamps[i].value)
  }

  /** Direct causality: same node and earlier, or the send that a receive took. */
  ghost predicate Edge(run: seq<Event>, e: nat, f: nat) {
    && e < f < |run|
    && (run[e].node == run[f].node || (run[f].Receive? && run[f].source == e))
  }

  ghost predicate Stamped(run: seq<Event>, e: nat) {
    e < |run| && Exec(run).stamps[e].Some?
  }

  /** Stamps are recorded once and for all. */
  lemma {:induction false} StampsStable(run: seq<Event>, k: nat, e: nat)
    requires e < k <= |run|
    ensures Exec(run).stamps[e] == Exec(run[..k]).stamps[e]
  {
    if k == |run| {
      assert run[..k] == run;
    } else {
      var init := run[..|run| - 1];
      StampsStable(init, k, e);
      assert init[..k] == run[..k];
    }
  }

  lemma SanePrefix(run: seq<Event>, k: nat)
    requires WellFormed(run) && SaneReadings(run) && k <= |run|
    ensures WellFormed(run[..k]) && SaneReadings(run[..k])
  {
    assert forall i :: 0 <= i < k ==> run[..k][i] == run[i];
  }

  /** The last event's stamp is later than its node's clock and than the stamp it received. */
  lemma LastStampLater(run: seq<Event>)
    requires run != [] && WellFormed(run) && SaneReadings(run)
    ensures var init, e := run[..|run| - 1], run[|run| - 1];
            var s := Exec(run).stamps[|run| - 1];
            && (s.Some? ==> !e.Restart? && Exec(run).clocks == Exec(init).clocks[e.node := s.value])
            && (s.Some? ==> Earlier(ClockOf(Exec(init), e.node), s.value))
            && (s.None? ==> Exec(run).clocks == if e.Restart? then Exec(init).clocks[e.node := ZERO]
                else Exec(init).clocks)
            && (s.Some? && e.Receive? ==>
                  Exec(init).stamps[e.source].Some? && Earlier(Exec(init).stamps[e.source].value, s.value))
  {
    var init, e := run[..|run| - 1], run[|run| - 1];
    SanePrefix(run, |run| - 1);
    RangesHold(init);
    var w := Exec(init);
    if e.Send? {
      TickedInRange(ClockOf(w, e.node), |init|, e.pt, e.pt2);
    } else if e.Receive? {
      assert run[e.source] == init[e.source];
      MergedInRange(ClockOf(w, e.node), w.stamps[e.source].value, |init|, e.pt, e.pt2);
    }
  }

  lemma {:induction false} ClocksAlwaysLead(run: seq<Event>)
    requires WellFormed(run) && SaneReadings(run)
    ensures ClocksLead(run, Exec(run))
  {
    hide Exec, Earlier;
    if run != [] {
      var init := run[..|run| - 1];
      SanePrefix(run, |run| - 1);
      ClocksAlwaysLead(init);
      LastStampLater(run);
      var w, w' := Exec(init), Exec(run);
      forall i | 0 <= i < |run| && w'.stamps[i].Some? && Unbroken(run, i, |run|)
        ensures run[i].node in w'.clocks && !Earlier(w'.clocks[run[i].node], w'.stamps[i].value)
      {
        if i < |init| {
          StampsStable(run, |init|, i);
          assert forall k :: 0 <= k < |init| ==> run[k] == init[k];
          assert Unbroken(init, i, |init|);
          assert !(run[|init|].Restart? && run[|init|].node == run[i].node);
          LaterStill(ClockOf(w, run[i].node), w'.clocks[run[i].node], w'.stamps[i].value);
        } else {
          NotEarlierSelf(w'.stamps[i].value);
        }
      }
    }
  }

  lemma NotEarlierSelf(a: Clock)
    ensures !Earlier(a, a)
  {
  }

  lemma LaterStill(a: Clock, b: Clock, c: Clock)
    ensures (a == b || Earlier(a, b)) && !Earlier(a, c) ==> !Earlier(b, c)
  {
  }

  ghost function Mark(run: seq<Event>, e: nat): Clock
    requires Stamped(run, e)
  {
    Exec(run).stamps[e].value
  }

  /** A receive is stamped later than the send it took. */
  lemma ReceiveLater(run: seq<Event>, f: nat)
    requires WellFormed(run) && SaneReadings(run) && Stamped(run, f) && run[f].Receive?
    ensures Stamped(run, run[f].source) && Earlier(Mark(run, run[f].source), Mark(run, f))
  {
    hide Exec, Earlier;
    SanePrefix(run, f + 1);
    StampsStable(run, f + 1, f);
    StampsStable(run, f + 1, run[f].source);
    var upto := run[..f + 1];
    assert upto[f] == run[f] && upto[..f] == run[..f];
    LastStampLater(upto);
    StampsStable(upto, f, run[f].source);
  }

  /** So is any stamp later than those of its node since the last start. */
  lemma UnbrokenLater(run: seq<Event>, e: nat, f: nat)
    requires WellFormed(run) && SaneReadings(run) && e < f && Stamped(run, e) && Stamped(run, f)
    requires run[e].node == run[f].node && Unbroken(run, e, f)
    ensures Earlier(Mark(run, e), Mark(run, f))
  {
    hide Exec, Earlier;
    var upto, init := run[..f + 1], run[..f];
    SanePrefix(run, f + 1);
    SanePrefix(run, f);
    StampsStable(run, f + 1, f);
    StampsStable(run, f, e);
    assert upto[f] == run[f] && upto[..f] == init;
    assert forall k :: 0 <= k < f ==> init[k] == run[k];
    LastStampLater(upto);
    ClocksAlwaysLead(init);
    assert Unbroken(init, e, f);
    LaterThanLed(ClockOf(Exec(init), run[f].node), Mark(run, e), Mark(run, f));
  }

  lemma LaterThanLed(h: Clock, a: Clock, b: Clock)
    requires !Earlier(h, a) && Earlier(h, b)
    ensures Earlier(a, b)
  {
  }

  // ----- restarts -----

  /** `e` and `f` are consecutive stamped events of a node that restarted in between. */
  ghost predicate Gap(run: seq<Event>, e: nat, f: nat) {
    && e < f && Stamped(run, e) && Stamped(run, f) && run[e].node == run[f].node && !Unbroken(run, e, f)
    && forall k :: e < k < f && run[k].node == run[e].node ==> !Stamped(run, k)
  }

  /**
    * Does the first stamp after a restart pass the last one before it, `m`? A send needs a
    * reading past `m`'s wall component; a receive may get there by the stamp it takes as well.
    */
  ghost predicate Passes(run: seq<Event>, m: Clock, f: nat)
    requires WellFormed(run) && f < |run| && (run[f].Receive? ==> Stamped(run, run[f].source))
  {
    match run[f]
    case Send(_, pt, _) => pt > m.l
    case Receive(_, pt, _, source) =>
      var s := Mark(run, source);
      Max(s.l, pt) > m.l || (s.l == m.l && pt <= s.l && s.c >= m.c)
    case Restart(_, _, _) => false
  }

  /** After a restart, until the node stamps again, its clock is at zero. */
  lemma {:induction false} ZeroInGap(run: seq<Event>, r: nat, f: nat)
    requires r < f <= |run| && run[r].Restart? && WellFormed(run) && SaneReadings(run)
    requires forall k :: r < k < f && run[k].node == run[r].node ==> !Stamped(run, k)
    ensures ClockOf(Exec(run[..f]), run[r].node) == ZERO
    decreases f
  {
    hide Exec, Earlier;
    var upto, init := run[..f], run[..f - 1];
    assert upto[..f - 1] == init && upto[f - 1] == run[f - 1];
    SanePrefix(run, f);
    LastStampLater(upto);
    StampsStable(run, f, f - 1);
    if r < f - 1 {
      ZeroInGap(run, r, f - 1);
    }
  }

  /** Exactly when the stamp after a restart is later than the one before it. */
  lemma GapExactly(run: seq<Event>, e: nat, f: nat)
    requires WellFormed(run) && SaneReadings(run) && Gap(run, e, f)
    ensures run[f].Receive? ==> Stamped(run, run[f].source)
    ensures Earlier(Mark(run, e), Mark(run, f)) <==> Passes(run, Mark(run, e), f)
  {
    hide Exec;
    var r :| e < r < f && run[r].node == run[e].node && run[r].Restart?;
    ZeroInGap(run, r, f);
    StampIsSane(run, e);
    StampIsSane(run, f);
    FromZero(run, f);
    if run[f].Receive? {
      ReceiveLater(run, f);
      StampIsSane(run, run[f].source);
      SentBelowGuard(run, run[f].source);
    }
  }

  /** A stamp from a clock at zero. */
  lemma FromZero(run: seq<Event>, f: nat)
    requires WellFormed(run) && SaneReadings(run) && Stamped(run, f) && ClockOf(Exec(run[..f]), run[f].node) == ZERO
    ensures run[f].Send? ==> Mark(run, f) == Ticked(ZERO, run[f].pt, run[f].pt2)
    ensures run[f].Receive? ==>
              && Stamped(run, run[f].source)
              && Some(Mark(run, f)) ==
                   Merged(ZERO, Mark(run, run[f].source).l, Mark(run, run[f].source).c, run[f].pt, run[f].pt2)
    ensures !run[f].Restart?
  {
    var upto := run[..f + 1];
    assert upto[..f] == run[..f] && upto[f] == run[f];
    StampsStable(run, f + 1, f);
    if run[f].Receive? {
      StampsStable(run, f, run[f].source);
    }
  }

  /** Every stamp is past zero and not negative. */
  lemma StampIsSane(run: seq<Event>, e: nat)
    requires WellFormed(run) && SaneReadings(run) && Stamped(run, e)
    ensures Mark(run, e).l >= 0 && Earlier(ZERO, Mark(run, e))
  {
    var upto := run[..e + 1];
    SanePrefix(run, e + 1);
    StampsStable(run, e + 1, e);
    LastStampLater(upto);
    assert upto[..e] == run[..e] && upto[e] == run[e];
    SanePrefix(run, e);
    RangesHold(run[..e]);
  }

  lemma SentBelowGuard(run: seq<Event>, e: nat)
    requires WellFormed(run) && SaneReadings(run) && Stamped(run, e) && run[e].Send?
    ensures Mark(run, e).c <= COUNTER_GUARD
  {
    RangesHold(run);
  }

  /** Every stamp after a restart passes the one before it. */
  ghost predicate RestartsPass(run: seq<Event>)
    requires WellFormed(run) && SaneReadings(run)
  {
    forall e, f :: Gap(run, e, f) ==> PassesGap(run, e, f)
  }

  ghost predicate PassesGap(run: seq<Event>, e: nat, f: nat)
    requires WellFormed(run) && SaneReadings(run) && Gap(run, e, f)
  {
    GapExactly(run, e, f);
    Passes(run, Mark(run, e), f)
  }

  /** The last stamped event of the node before `f`, from `e` on. */
  ghost function LastBefore(run: seq<Event>, e: nat, f: nat): (g: nat)
    requires e < f <= |run| && Stamped(run, e)
    ensures e <= g < f && Stamped(run, g) && run[g].node == run[e].node
    ensures forall k :: g < k < f && run[k].node == run[e].node ==> !Stamped(run, k)
    decreases f
  {
    if f - 1 == e || (run[f - 1].node == run[e].node && Stamped(run, f - 1)) then f - 1 else LastBefore(run, e, f - 1)
  }

  lemma {:induction false} SameNodeIncreases(run: seq<Event>, e: nat, f: nat)
    requires WellFormed(run) && SaneReadings(run) && RestartsPass(run)
    requires e < f && Stamped(run, e) && Stamped(run, f) && run[e].node == run[f].node
    ensures Earlier(Mark(run, e), Mark(run, f))
    decreases f
  {
    hide Exec, Earlier, Passes;
    var g := LastBefore(run, e, f);
    if Unbroken(run, g, f) {
      UnbrokenLater(run, g, f);
    } else {
      assert Gap(run, g, f);
      assert PassesGap(run, g, f);
      GapExactly(run, g, f);
    }
    if e < g {
      SameNodeIncreases(run, e, g);
      EarlierTransitive(Mark(run, e), Mark(run, g), Mark(run, f));
    }
  }

  /** One step of causality strictly increases the stamp. */
  lemma EdgeIncreases(run: seq<Event>, e: nat, f: nat)
    requires WellFormed(run) && SaneReadings(run) && RestartsPass(run)
    requires Edge(run, e, f) && Stamped(run, e) && Stamped(run, f)
    ensures Earlier(Mark(run, e), Mark(run, f))
  {
    hide Exec, Earlier, RestartsPass;
    if run[e].node == run[f].node {
      SameNodeIncreases(run, e, f);
    } else {
      ReceiveLater(run, f);
    }
  }

  /** Happens-before: a chain of direct causes between stamped events. */
  ghost predicate Causes(run: seq<Event>, path: seq<nat>) {
    && |path| >= 2
    && (forall i :: 0 <= i < |path| ==> Stamped(run, path[i]))
    && (forall i :: 0 <= i < |path| - 1 ==> Edge(run, path[i], path[i + 1]))
  }

  ghost function StampOf(run: seq<Event>, e: nat): Timestamp
    requires Stamped(run, e)
  {
    Timestamp(Mark(run, e).l, Mark(run, e).c, run[e].node)
  }

  /** The clock condition: happens-before implies a strictly smaller timestamp. */
  lemma {:induction false} ClockCondition(run: seq<Event>, path: seq<nat>)
    requires WellFormed(run) && SaneReadings(run) && RestartsPass(run)
    requires Causes(run, path)
    ensures Before(StampOf(run, path[0]), StampOf(run, path[|path| - 1]))
    ensures Earlier(Mark(run, path[0]), Mark(run, path[|path| - 1]))
    decreases |path|
  {
    hide Earlier, Edge, Mark, WellFormed, SaneReadings, RestartsPass;
    var n := |path|;
    EdgeIncreases(run, path[n - 2], path[n - 1]);
    if n > 2 {
      ClockCondition(run, path[..n - 1]);
      EarlierTransitive(Mark(run, path[0]), Mark(run, path[n - 2]), Mark(run, path[n - 1]));
    }
    EarlierIsBefore(StampOf(run, path[0]), StampOf(run, path[n - 1]));
  }

  /**
    * With restarts: the clock condition holds of a run if and only
    * if every restart's first stamp passes the last one before.
    */
  lemma ClockConditionExactly(run: seq<Event>)
    requires WellFormed(run) && SaneReadings(run)
    ensures RestartsPass(run) <==>
            forall path :: Causes(run, path) ==> Earlier(Mark(run, path[0]), Mark(run, path[|path| - 1]))
  {
    hide Exec, Earlier, Passes;
    if RestartsPass(run) {
      forall path | Causes(run, path)
        ensures Earlier(Mark(run, path[0]), Mark(run, path[|path| - 1]))
      {
        ClockCondition(run, path);
      }
    } else {
      var e, f :| Gap(run, e, f) && !PassesGap(run, e, f);
      GapExactly(run, e, f);
      assert Causes(run, [e, f]);
    }
  }

  /**
    * The failing input: a clock that ran ahead of its node's readings, a restart, and a reading that has not caught up.
    */
  lemma RestartCanStepBack()
    ensures var run := [Send([1], 9, 9), Receive([2], 5, 5, 0), Restart([2], 6, 6), Send([2], 7, 7)];
            WellFormed(run) && SaneReadings(run) && Stamped(run, 1) && Stamped(run, 3)
              && Earlier(Mark(run, 3), Mark(run, 1))
  {
    var run := [Send([1], 9, 9), Receive([2], 5, 5, 0), Restart([2], 6, 6), Send([2], 7, 7)];
    assert run[..3][..2][..1] == [run[0]] && [run[0]][..0] == [];
    assert Exec([run[0]]) == World(map[[1] := Clock(9, 0)], [Some(Clock(9, 0))]);
    assert run[..3][..2] == run[..2] && run[..2][..1] == [run[0]];
    assert Exec(run[..2]).stamps == [Some(Clock(9, 0)), Some(Clock(9, 1))];
    assert Exec(run[..3]).stamps == Exec(run[..2]).stamps + [None] && ClockOf(Exec(run[..3]), [2]) == ZERO;
    assert Exec(run).stamps == Exec(run[..3]).stamps + [Some(Clock(7, 0))];
  }

  lemma EarlierTransitive(a: Clock, b: Clock, c: Clock)
    requires Earlier(a, b) && Earlier(b, c)
    ensures Earlier(a, c)
  {
  }

  lemma EarlierIsBefore(a: Timestamp, b: Timestamp)
    requires Earlier(Clock(a.wall, a.counter), Clock(b.wall, b.counter))
    ensures Before(a, b)
  {
  }

  /** No two stamped events of a run ever carry the same timestamp. */
  lemma StampsDistinct(run: seq<Event>, e: nat, f: nat)
    requires WellFormed(run) && SaneReadings(run) && RestartsPass(run)
    requires e < f && Stamped(run, e) && Stamped(run, f)
    ensures StampOf(run, e) != StampOf(run, f)
  {
    if run[e].node == run[f].node {
      EdgeIncreases(run, e, f);
    }
  }

  // ----- the drift bound -----

  /** A node's readings so far: the latest one, and how often the overflow guard has pushed the clock on. */
  datatype Account = Account(latest: int, bumps: nat)

  ghost function AccountOf(run: seq<Event>, node: Bytes): Account {
    if run == [] then Account(0, 0)
    else
      var init, e := run[..|run| - 1], run[|run| - 1];
      var a := AccountOf(init, node);
      if e.node != node then a
      else if GuardFires(Exec(init), e) then Account(e.pt2, a.bumps + 1)
      else Account(e.pt, a.bumps)
  }

  ghost predicate GuardFires(w: World, e: Event) {
    var h := ClockOf(w, e.node);
    && h.c >= COUNTER_GUARD
    && match e
       case Send(_, pt, _) => pt <= h.l
       case Receive(_, pt, _, source) =>
         source < |w.stamps| && w.stamps[source].Some? && !DriftTooLarge(w.stamps[source].value.l, pt)
       case Restart(_, _, _) => false
  }

  /** The node's physical clock never goes backwards. */
  ghost predicate MonotoneReadings(run: seq<Event>, node: Bytes) {
    forall k :: 0 <= k < |run| && run[k].node == node ==>
      AccountOf(run[..k], node).latest <= run[k].pt <= run[k].pt2
  }

  lemma MonotonePrefix(run: seq<Event>, node: Bytes)
    requires run != [] && MonotoneReadings(run, node)
    ensures MonotoneReadings(run[..|run| - 1], node)
    ensures var e := run[|run| - 1];
            e.node == node ==> AccountOf(run[..|run| - 1], node).latest <= e.pt <= e.pt2
  {
    hide AccountOf;
    var init := run[..|run| - 1];
    forall k | 0 <= k < |init| && init[k].node == node
      ensures AccountOf(init[..k], node).latest <= init[k].pt <= init[k].pt2
    {
      assert init[..k] == run[..k] && init[k] == run[k];
    }
  }

  /** One event moves a node's wall component no further ahead of its latest reading than the account allows. */
  lemma DriftStep(init: seq<Event>, e: Event, a: Account)
    requires WellFormed(init + [e]) && SaneReadings(init + [e])
    requires a.latest <= e.pt <= e.pt2
    requires ClockOf(Exec(init), e.node).l <= a.latest + MAX_DRIFT_MS + a.bumps
    ensures var w := Exec(init);
            ClockOf(Step(w, e), e.node).l <=
              if GuardFires(w, e) then e.pt2 + MAX_DRIFT_MS + a.bumps + 1 else e.pt + MAX_DRIFT_MS + a.bumps
  {
    var run := init + [e];
    assert run[..|init|] == init && run[|init|] == e;
    SanePrefix(run, |init|);
    RangesHold(init);
    var w := Exec(init);
    var bound := a.latest + MAX_DRIFT_MS + a.bumps;
    hide Exec;
    if e.Send? {
      TickDrift(ClockOf(w, e.node), |init|, e.pt, e.pt2, bound);
    } else if e.Receive? {
      assert run[e.source] == init[e.source];
      MergeDrift(ClockOf(w, e.node), w.stamps[e.source].value, |init|, e.pt, e.pt2, bound);
    }
  }

  /**
    * The wall component is at most the drift limit, plus one millisecond per guard bump, ahead of the node's own clock.
    */
  lemma {:induction false} DriftBound(run: seq<Event>, node: Bytes)
    requires WellFormed(run) && SaneReadings(run) && MonotoneReadings(run, node)
    ensures ClockOf(Exec(run), node).l <= AccountOf(run, node).latest + MAX_DRIFT_MS + AccountOf(run, node).bumps
  {
    hide Step, GuardFires, WellFormed, SaneReadings, MonotoneReadings;
    if run != [] {
      var init, e := run[..|run| - 1], run[|run| - 1];
      assert run == init + [e];
      SanePrefix(run, |run| - 1);
      MonotonePrefix(run, node);
      DriftBound(init, node);
      if e.node == node {
        DriftStep(init, e, AccountOf(init, node));
      } else {
        OtherClocksStay(Exec(init), e, node);
      }
    }
  }

  lemma OtherClocksStay(w: World, e: Event, node: Bytes)
    requires e.node != node
    ensures ClockOf(Step(w, e), node) == ClockOf(w, node)
  {
  }

  lemma TickDrift(h: Clock, k: nat, pt: int, pt2: int, bound: int)
    requires ClockInRange(h, k) && k + 1 < READING_LIMIT && h.l <= bound && 0 <= pt <= pt2 < READING_LIMIT
    ensures Ticked(h, pt, pt2).l <= Max(bound + (if pt <= h.l && h.c >= COUNTER_GUARD then 1 else 0),
                                        if pt <= h.l && h.c >= COUNTER_GUARD then pt2 else pt)
  {
  }

  lemma MergeDrift(h: Clock, m: Clock, k: nat, pt: int, pt2: int, bound: int)
    requires ClockInRange(h, k) && ClockInRange(m, k) && k + 1 < READING_LIMIT && h.l <= bound
    requires 0 <= pt <= pt2 < READING_LIMIT
    ensures Merged(h, m.l, m.c, pt, pt2).Some? ==>
            Merged(h, m.l, m.c, pt, pt2).value.l <=
            Max(bound + (if h.c >= COUNTER_GUARD then 1 else 0),
                (if h.c >= COUNTER_GUARD then pt2 else pt) + MAX_DRIFT_MS)
  {
  }
}
