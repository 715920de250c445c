/** The hybrid logical clock, with its int64 wall component and uint32 counter. */
module HybridClock {
  import opened Bytes
  import opened Types

  const MAX_DRIFT_MS := 10000
  const COUNTER_MAX := 0xFFFF_FFFF
  const COUNTER_GUARD := 0xFFFF_FFFE

  function WrapU32(n: int): (r: nat)
    ensures r <= COUNTER_MAX
    ensures 0 <= n <= COUNTER_MAX ==> r == n
  {
    n % 0x1_0000_0000
  }

  function WrapI64(n: int): (r: int)
    ensures -0x8000_0000_0000_0000 <= r < 0x8000_0000_0000_0000
    ensures -0x8000_0000_0000_0000 <= n < 0x8000_0000_0000_0000 ==> r == n
  {
    (n + 0x8000_0000_0000_0000) % 0x1_0000_0000_0000_0000 - 0x8000_0000_0000_0000
  }

  function Max(a: int, b: int): (r: int)
    ensures r >= a && r >= b && (r == a || r == b)
  {
    if b > a then b else a
  }

  /** The clock's mutable part. */
  datatype Clock = Clock(l: int, c: nat)

  const ZERO := Clock(0, 0)

  /** Both guards' reaction to a counter about to overflow: push the wall component on. */
  function Bumped(h: Clock, pt: int): Clock {
    Clock(Max(WrapI64(h.l + 1), pt), 0)
  }

  /** Now: `pt` is the first reading, `pt2` the reading taken after the guard's sleep. */
  function Ticked(h: Clock, pt: int, pt2: int): Clock {
    if pt > h.l then Clock(pt, 0)
    else if h.c >= COUNTER_GUARD then Bumped(h, pt2)
    else Clock(h.l, WrapU32(h.c + 1))
  }

  predicate DriftTooLarge(wall: int, pt: int) {
    WrapI64(wall - pt) > MAX_DRIFT_MS
  }

  /** Update: `None` is the clock-drift error. */
  function Merged(h: Clock, wall: int, counter: nat, pt: int, pt2: int): Option<Clock> {
    if DriftTooLarge(wall, pt) then None
    else if h.c >= COUNTER_GUARD then Some(Joined(Bumped(h, pt2), wall, counter, pt2))
    else Some(Joined(h, wall, counter, pt))
  }

  /** The merge proper, once the overflow guard has run. */
  function Joined(h: Clock, wall: int, counter: nat, pt: int): Clock {
    var newL := Max(Max(h.l, wall), pt);
    Clock(newL,
          if newL == h.l && newL == wall then WrapU32(Max(h.c, counter) + 1)
          else if newL == h.l then WrapU32(h.c + 1)
          else if newL == wall then WrapU32(counter + 1)
          else 0)
  }

  /** Order on (wall, counter): the causal part of a timestamp. */
  predicate Earlier(a: Clock, b: Clock) {
    a.l < b.l || (a.l == b.l && a.c < b.c)
  }

  /** HLCTimestamp.Before. */
  predicate Before(a: Timestamp, b: Timestamp) {
    if a.wall != b.wall then a.wall < b.wall
    else if a.counter != b.counter then a.counter < b.counter
    else Less(a.node, b.node)
  }

  lemma BeforeStrictTotal(a: Timestamp, b: Timestamp, c: Timestamp)
    ensures a == b || Before(a, b) || Before(b, a)
    ensures Before(a, b) ==> !Before(b, a) && a != b
    ensures Before(a, b) && Before(b, c) ==> Before(a, c)
  {
    LessTotal(a.node, b.node);
    LessIrreflexive(a.node);
    if Less(a.node, b.node) {
      LessAsymmetric(a.node, b.node);
      if Less(b.node, c.node) {
        LessTransitive(a.node, b.node, c.node);
      }
    }
  }

  class HLC {
    const id: Bytes
    var l: int
    var c: nat

    function State(): Clock
      reads this
    {
      Clock(l, c)
    }

    function Stamp(): Timestamp
      reads this
    {
      Timestamp(l, c, id)
    }

    constructor (id: Bytes)
      ensures State() == ZERO && this.id == id
    {
      this.id, l, c := id, 0, 0;
    }

    /** A timestamp for a local event; a new reading is taken only when the guard fires. */
    method Now(pt: int, pt2: int) returns (ts: Timestamp)
      modifies this
      ensures State() == Ticked(old(State()), pt, pt2) && ts == Stamp()
      ensures 0 <= old(l) < 0x7FFF_FFFF_FFFF_FFFF && old(c) <= COUNTER_MAX ==> Earlier(old(State()), State())
    {
      if pt > l {
        l, c := pt, 0;
      } else if c >= COUNTER_GUARD {
        l, c := Max(WrapI64(l + 1), pt2), 0;
      } else {
        c := WrapU32(c + 1);
      }
      ts := Stamp();
    }

    /** The receive event; on the drift error nothing changes. */
    method Update(received: Timestamp, pt: int, pt2: int) returns (ts: Option<Timestamp>)
      modifies this
      ensures ts.None? <==> DriftTooLarge(received.wall, pt)
      ensures ts.None? ==> State() == old(State())
      ensures ts.Some? ==> ts.value == Stamp()
      ensures ts.Some? ==> Some(State()) == Merged(old(State()), received.wall, received.counter, pt, pt2)
      ensures ts.None? ==> Merged(old(State()), received.wall, received.counter, pt, pt2).None?
    {
      var now, msgL := pt, received.wall;
      if WrapI64(msgL - now) > MAX_DRIFT_MS {
        return None;
      }
      if c >= COUNTER_GUARD {
        now := pt2;
        l := Max(WrapI64(l + 1), now);
        c := 0;
      }
      var newL := Max(Max(l, msgL), now);
      if newL == l && newL == msgL {
        c := WrapU32(Max(c, received.counter) + 1);
      } else if newL == l {
        c := WrapU32(c + 1);
      } else if newL == msgL {
        c := WrapU32(received.counter + 1);
      } else {
        c := 0;
      }
      l := newL;
      ts := Some(Stamp());
    }
  }

  /** No clock that meets the bounds is earlier. */
  ghost predicate Least(x: Clock, bounds: set<Clock>, reading: int) {
    && x.l >= reading && (forall b :: b in bounds ==> Earlier(b, x))
    && forall y: Clock :: y.l >= reading && (forall b :: b in bounds ==> Earlier(b, y)) ==> x == y || Earlier(x, y)
  }

  /**
    * The clock never runs further ahead than it must: a tick is
    * the least clock after the old one and not behind the reading.
    */
  lemma TickIsLeast(h: Clock, pt: int, pt2: int)
    requires 0 <= h.l < 0x7FFF_FFFF_FFFF_FFFF && h.c <= COUNTER_MAX
    ensures pt > h.l || h.c < COUNTER_GUARD ==> Least(Ticked(h, pt, pt2), {h}, pt)
    ensures pt <= h.l && h.c >= COUNTER_GUARD ==> Least(Ticked(h, pt, pt2), {}, Max(h.l + 1, pt2))
  {
    var x := Ticked(h, pt, pt2);
    forall y: Clock | y.l >= pt && Earlier(h, y)
      ensures pt > h.l || h.c < COUNTER_GUARD ==> x == y || Earlier(x, y)
    {
    }
  }

  /** A receive is the least clock after the old one and after what was received, and not behind the reading. */
  lemma MergeIsLeast(h: Clock, wall: int, counter: nat, pt: int, pt2: int)
    requires 0 <= h.l < 0x7FFF_FFFF_FFFF_FFFF && h.c <= COUNTER_MAX && counter < COUNTER_MAX && !DriftTooLarge(wall, pt)
    ensures var x, base := Merged(h, wall, counter, pt, pt2).value, Clock(Max(h.l + 1, pt2), 0);
            if h.c < COUNTER_GUARD then Least(x, {h, Clock(wall, counter)}, pt)
            else Least(x, {base, Clock(wall, counter)}, pt2)
  {
    var x := Merged(h, wall, counter, pt, pt2).value;
    var base := if h.c < COUNTER_GUARD then h else Clock(Max(h.l + 1, pt2), 0);
    var reading := if h.c < COUNTER_GUARD then pt else pt2;
    var bounds := {base, Clock(wall, counter)};
    forall y: Clock | y.l >= reading && (forall b :: b in bounds ==> Earlier(b, y))
      ensures x == y || Earlier(x, y)
    {
      assert base in bounds && Clock(wall, counter) in bounds;
    }
  }

  /** Does the received wall time decide the merged one? */
  predicate WallDecides(h: Clock, wall: int, pt: int, pt2: int) {
    if h.c >= COUNTER_GUARD then wall >= h.l + 1 && wall >= pt2 else wall >= h.l && wall >= pt
  }

  /**
    * An accepted receive is stamped later than what it received exactly unless that
    * carries the largest counter and its wall time decides; and later than the
    * clock was exactly unless, besides, the clock already stood at that wall time.
    */
  lemma MergeDominatesExactlyWhen(h: Clock, wall: int, counter: nat, pt: int, pt2: int)
    requires 0 <= h.l < 0x7FFF_FFFF_FFFF_FFFF && h.c <= COUNTER_MAX && counter <= COUNTER_MAX
    requires !DriftTooLarge(wall, pt)
    ensures var m := Merged(h, wall, counter, pt, pt2).value;
            Earlier(Clock(wall, counter), m) <==> !(counter == COUNTER_MAX && WallDecides(h, wall, pt, pt2))
    ensures var m := Merged(h, wall, counter, pt, pt2).value;
            Earlier(h, m) <==> !(h.c < COUNTER_GUARD && counter == COUNTER_MAX && wall == h.l && pt <= h.l)
  {
  }

  /** The failing input: a counter of 2^32 - 1 wraps to zero and the receive is stamped before the send. */
  lemma LargestCounterWraps()
    ensures Merged(Clock(5, 0), 7, COUNTER_MAX, 6, 6) == Some(Clock(7, 0))
    ensures Earlier(Merged(Clock(5, 0), 7, COUNTER_MAX, 6, 6).value, Clock(7, COUNTER_MAX))
  {
  }
}
