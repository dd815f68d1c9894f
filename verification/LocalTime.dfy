/**
 From wall-clock time to UTC. A zone is a first offset and a list of transitions to later offsets; a local
 time may exist once, twice (clocks go back) or not at all (clocks go forward). Section 3.3.5 of RFC 5545
 says which instant each of them means; `Resolve` is the cascade the reader uses instead.
 */
module LocalTime {
  import opened Wrappers
  import opened Model

  const HOUR: int := 3600 * 1_000_000_000

  /** From `at` on, local time is UTC plus `offset`. */
  datatype Transition = Transition(at: Instant, offset: int)

  datatype Zone = Zone(first: int, transitions: seq<Transition>)

  // ----- zones ----------------------------------------------------------------------

  /** Segments are numbered from 0; segment `k` starts at transition `k - 1` and ends at transition `k`. */
  function Offset(z: Zone, k: nat): int
    requires k <= |z.transitions|
  {
    if k == 0 then z.first else z.transitions[k - 1].offset
  }

  function At(z: Zone, i: nat): Instant
    requires i < |z.transitions|
  {
    z.transitions[i].at
  }

  /** How far transition `i` moves the clock. */
  function Jump(z: Zone, i: nat): int
    requires i < |z.transitions|
  {
    Offset(z, i + 1) - Offset(z, i)
  }

  /** What the clock shows when transition `i` is about to happen, and right after it. */
  function ClockBefore(z: Zone, i: nat): int
    requires i < |z.transitions|
  {
    At(z, i) + Offset(z, i)
  }

  function ClockAfter(z: Zone, i: nat): int
    requires i < |z.transitions|
  {
    At(z, i) + Offset(z, i + 1)
  }

  predicate InSegment(z: Zone, k: nat, t: Instant)
    requires k <= |z.transitions|
  {
    (k > 0 ==> At(z, k - 1) <= t) && (k < |z.transitions| ==> t < At(z, k))
  }

  predicate Sorted(z: Zone) {
    forall i, j | 0 <= i < j < |z.transitions| :: At(z, i) < At(z, j)
  }

  function SegmentFrom(z: Zone, t: Instant, k: nat): (s: nat)
    requires Sorted(z) && k <= |z.transitions| && (k > 0 ==> At(z, k - 1) <= t)
    ensures s <= |z.transitions| && InSegment(z, s, t)
    decreases |z.transitions| - k
  {
    if k < |z.transitions| && At(z, k) <= t then SegmentFrom(z, t, k + 1) else k
  }

  /** What the clock on the wall shows at instant `t`. */
  function WallClock(z: Zone, t: Instant): int
    requires Sorted(z)
  {
    t + Offset(z, SegmentFrom(z, t, 0))
  }

  lemma SegmentUnique(z: Zone, t: Instant, k: nat)
    requires Sorted(z) && k <= |z.transitions| && InSegment(z, k, t)
    ensures SegmentFrom(z, t, 0) == k
  {
    assert InSegment(z, SegmentFrom(z, t, 0), t);
  }

  /** Before the first transition the clock runs on the first offset, after a transition on the offset it starts. */
  lemma WallClockMeaning(z: Zone, t: Instant)
    requires Sorted(z)
    ensures (forall i | 0 <= i < |z.transitions| :: t < z.transitions[i].at) ==> WallClock(z, t) == t + z.first
    ensures forall i | 0 <= i < |z.transitions| ::
              z.transitions[i].at <= t && (i + 1 < |z.transitions| ==> t < z.transitions[i + 1].at) ==>
                WallClock(z, t) == t + z.transitions[i].offset
  {
    if forall i | 0 <= i < |z.transitions| :: t < z.transitions[i].at {
      SegmentUnique(z, t, 0);
    }
    forall i | 0 <= i < |z.transitions| && z.transitions[i].at <= t
      && (i + 1 < |z.transitions| ==> t < z.transitions[i + 1].at)
      ensures WallClock(z, t) == t + z.transitions[i].offset
    {
      SegmentUnique(z, t, i + 1);
    }
  }

  // ----- resolution -----------------------------------------------------------------

  /** The first segment from `k` on whose offset turns `local` into one of its own instants. */
  function EarliestFrom(z: Zone, local: int, k: nat): Option<Instant>
    requires k <= |z.transitions|
    decreases |z.transitions| - k
  {
    if InSegment(z, k, local - Offset(z, k)) then Some(local - Offset(z, k))
    else if k == |z.transitions| then None
    else EarliestFrom(z, local, k + 1)
  }

  /** `from_local_datetime(..).earliest()` */
  function Earliest(z: Zone, local: int): Option<Instant> {
    EarliestFrom(z, local, 0)
  }

  /** The cascade for a named zone: earliest instant, else one hour later, else read the time as UTC. */
  function Resolve(z: Zone, local: int): Instant {
    var t := OrElse(Earliest(z, local), Earliest(z, local + HOUR));
    if t.Some? then t.value else local
  }

  /** An explicit offset always wins; without offset and known zone the time floats and is read as UTC. */
  function ToUtc(local: int, offset: Option<int>, zone: Option<Zone>): Instant {
    if offset.Some? then local - offset.value
    else if zone.None? then local
    else Resolve(zone.value, local)
  }

  // ----- times that exist -----------------------------------------------------------

  ghost predicate Exists(z: Zone, local: int)
    requires Sorted(z)
  {
    exists t :: WallClock(z, t) == local
  }

  /** `t` is the first instant at which the clock shows `local`. */
  ghost predicate FirstOccurrence(z: Zone, local: int, t: Instant)
    requires Sorted(z)
  {
    WallClock(z, t) == local && forall t' :: WallClock(z, t') == local ==> t <= t'
  }

  lemma {:induction false} EarliestFromCorrect(z: Zone, local: int, k: nat, t: Instant)
    requires Sorted(z) && k <= |z.transitions|
    requires WallClock(z, t) == local && k <= SegmentFrom(z, t, 0)
    ensures EarliestFrom(z, local, k).Some? && EarliestFrom(z, local, k).value <= t
    decreases |z.transitions| - k
  {
    var s := SegmentFrom(z, t, 0);
    if k < s {
      if InSegment(z, k, local - Offset(z, k)) {
        assert At(z, k) <= At(z, s - 1);
      } else {
        EarliestFromCorrect(z, local, k + 1, t);
      }
    }
  }

  lemma {:induction false} EarliestFromShows(z: Zone, local: int, k: nat)
    requires Sorted(z) && k <= |z.transitions| && EarliestFrom(z, local, k).Some?
    ensures WallClock(z, EarliestFrom(z, local, k).value) == local
    decreases |z.transitions| - k
  {
    if InSegment(z, k, local - Offset(z, k)) {
      SegmentUnique(z, local - Offset(z, k), k);
    } else {
      EarliestFromShows(z, local, k + 1);
    }
  }

  /** The scan finds an instant exactly when there is one, and then the first. */
  lemma EarliestIsFirst(z: Zone, local: int)
    requires Sorted(z)
    ensures Earliest(z, local).Some? <==> Exists(z, local)
    ensures Earliest(z, local).Some? ==> FirstOccurrence(z, local, Earliest(z, local).value)
  {
    if Earliest(z, local).Some? {
      EarliestFromShows(z, local, 0);
    }
    forall t | WallClock(z, t) == local
      ensures Earliest(z, local).Some? && Earliest(z, local).value <= t
    {
      EarliestFromCorrect(z, local, 0, t);
    }
  }

  /** A local time that exists resolves to the first instant it names. No assumption on the zone but order. */
  lemma ResolveExisting(z: Zone, local: int)
    requires Sorted(z) && Exists(z, local)
    ensures FirstOccurrence(z, local, Resolve(z, local))
  {
    EarliestIsFirst(z, local);
  }

  /**
   Reading back what a clock shows: with its offset always the same instant; in a zone the same instant exactly
   when the clock had not shown that time before.
   */
  lemma ToUtcInvertsClock(z: Zone, t: Instant, offset: int, zone: Option<Zone>)
    requires Sorted(z)
    ensures ToUtc(t + offset, Some(offset), zone) == t
    ensures ToUtc(t, None, None) == t
    ensures ToUtc(WallClock(z, t), None, Some(z)) == t <==>
            forall t' | t' < t :: WallClock(z, t') != WallClock(z, t)
  {
    var local := WallClock(z, t);
    assert Exists(z, local);
    ResolveExisting(z, local);
  }

  // ----- gaps -----------------------------------------------------------------------

  /**
   Transitions are far enough apart: at least an hour, and at least as far as any neighbouring backward
   jump, so that at most two segments show one local time and the retry stays inside one segment.
   */
  predicate Spaced(z: Zone) {
    Sorted(z) && forall i | 0 <= i < |z.transitions| - 1 :: SpacedAt(z, i)
  }

  predicate SpacedAt(z: Zone, i: nat)
    requires i + 1 < |z.transitions|
  {
    var space := At(z, i + 1) - At(z, i);
    3_600_000_000_000 <= space && 0 <= space + Jump(z, i) && 0 <= space + Jump(z, i + 1)
  }

  predicate InGap(z: Zone, i: nat, local: int) {
    i < |z.transitions| && ClockBefore(z, i) <= local < ClockAfter(z, i)
  }

  lemma {:induction false} ClocksMonotone(z: Zone, i: nat, j: nat)
    requires Spaced(z) && i <= j < |z.transitions|
    ensures ClockBefore(z, i) <= ClockBefore(z, j)
    ensures ClockAfter(z, i) <= ClockAfter(z, j)
    ensures i < j ==> ClockAfter(z, i) + 3_600_000_000_000 <= ClockBefore(z, j)
    decreases j - i
  {
    if i < j {
      assert SpacedAt(z, i);
      ClocksMonotone(z, i + 1, j);
    }
  }

  /** Two gaps never share a local time. */
  lemma GapUnique(z: Zone, i: nat, j: nat, local: int)
    requires Spaced(z) && InGap(z, i, local) && InGap(z, j, local)
    ensures i == j
  {
    if i < j {
      ClocksMonotone(z, i, j);
    } else if j < i {
      ClocksMonotone(z, j, i);
    }
  }

  lemma {:induction false} SkipSegments(z: Zone, local: int, k: nat, i: nat)
    requires Spaced(z) && k <= i < |z.transitions| && ClockBefore(z, i) <= local
    ensures EarliestFrom(z, local, k) == EarliestFrom(z, local, i + 1)
    decreases i - k
  {
    ClocksMonotone(z, k, i);
    if k < i {
      SkipSegments(z, local, k + 1, i);
    }
  }

  lemma {:induction false} NoneLater(z: Zone, local: int, k: nat, i: nat)
    requires Spaced(z) && i < k <= |z.transitions| && local < ClockAfter(z, i)
    ensures EarliestFrom(z, local, k).None?
    decreases |z.transitions| - k
  {
    ClocksMonotone(z, i, k - 1);
    if k < |z.transitions| {
      NoneLater(z, local, k + 1, i);
    }
  }

  lemma GapHasNoInstant(z: Zone, i: nat, local: int)
    requires Spaced(z) && InGap(z, i, local)
    ensures Earliest(z, local).None?
  {
    SkipSegments(z, local, 0, i);
    NoneLater(z, local, i + 1, i);
  }

  /** A time that no instant shows lies in a gap. */
  lemma {:induction false} MissingIsInGap(z: Zone, local: int, k: nat) returns (i: nat)
    requires Sorted(z) && k <= |z.transitions| && EarliestFrom(z, local, k).None?
    requires k > 0 ==> ClockBefore(z, k - 1) <= local
    ensures InGap(z, i, local)
    decreases |z.transitions| - k
  {
    if k > 0 && local < ClockAfter(z, k - 1) {
      i := k - 1;
    } else {
      i := MissingIsInGap(z, local, k + 1);
    }
  }

  /**
   What the cascade makes of a time in a gap, whatever the width of the gap. Here and below the hour is written
   out in nanoseconds.
   */
  lemma ResolveInGap(z: Zone, i: nat, local: int)
    requires Spaced(z) && InGap(z, i, local)
    ensures Earliest(z, local).None?
    ensures Resolve(z, local) ==
            if ClockAfter(z, i) > local + 3_600_000_000_000 then local
            else local + 3_600_000_000_000 - Offset(z, i + 1)
    ensures Earliest(z, local + 3_600_000_000_000).Some? <==> ClockAfter(z, i) <= local + 3_600_000_000_000
  {
    GapHasNoInstant(z, i, local);
    if ClockAfter(z, i) <= local + HOUR {
      SkipSegments(z, local + HOUR, 0, i);
      if i + 1 < |z.transitions| {
        assert SpacedAt(z, i);
      }
    } else {
      GapHasNoInstant(z, i, local + HOUR);
    }
  }

  /** Section 3.3.5: the first occurrence if there is one, else the instant the offset before the gap gives. */
  ghost predicate MeansByStandard(z: Zone, local: int, t: Instant)
    requires Sorted(z)
  {
    if Exists(z, local) then FirstOccurrence(z, local, t)
    else exists i :: InGap(z, i, local) && t == local - Offset(z, i)
  }

  lemma GapMeaning(z: Zone, i: nat, local: int)
    requires Spaced(z) && InGap(z, i, local)
    ensures MeansByStandard(z, local, Resolve(z, local)) <==>
            if ClockAfter(z, i) <= local + 3_600_000_000_000 then Jump(z, i) == 3_600_000_000_000 else Offset(z, i) == 0
  {
    ResolveInGap(z, i, local);
    EarliestIsFirst(z, local);
    forall j | InGap(z, j, local) ensures j == i {
      GapUnique(z, i, j, local);
    }
  }

  /**
   The cascade gives every local time the meaning the standard gives it, exactly in the zones whose
   forward jumps are all one hour.
   */
  lemma ResolveMeetsStandard(z: Zone)
    requires Spaced(z)
    ensures (forall local :: MeansByStandard(z, local, Resolve(z, local))) <==>
            (forall i | 0 <= i < |z.transitions| :: Jump(z, i) <= 0 || Jump(z, i) == 3_600_000_000_000)
  {
    if forall i | 0 <= i < |z.transitions| :: Jump(z, i) <= 0 || Jump(z, i) == HOUR {
      forall local ensures MeansByStandard(z, local, Resolve(z, local)) {
        EarliestIsFirst(z, local);
        if Earliest(z, local).None? {
          ghost var i := MissingIsInGap(z, local, 0);
          assert Jump(z, i) == HOUR;
          GapMeaning(z, i, local);
        }
      }
    }
    forall i | 0 <= i < |z.transitions| && Jump(z, i) > 0 && Jump(z, i) != HOUR
      ensures exists local :: !MeansByStandard(z, local, Resolve(z, local))
    {
      // The last tick of the gap: the retry always reaches the other side of it.
      var local := ClockAfter(z, i) - 1;
      GapMeaning(z, i, local);
    }
  }

  /** The fallback to UTC is dead code exactly when no gap is wider than an hour. */
  lemma FallbackUnused(z: Zone)
    requires Spaced(z)
    ensures (forall local :: OrElse(Earliest(z, local), Earliest(z, local + 3_600_000_000_000)).Some?) <==>
            (forall i | 0 <= i < |z.transitions| :: Jump(z, i) <= 3_600_000_000_000)
  {
    if forall i | 0 <= i < |z.transitions| :: Jump(z, i) <= HOUR {
      forall local ensures OrElse(Earliest(z, local), Earliest(z, local + HOUR)).Some? {
        if Earliest(z, local).None? {
          var i := MissingIsInGap(z, local, 0);
          assert Jump(z, i) <= HOUR;
          ResolveInGap(z, i, local);
        }
      }
    }
    forall i | 0 <= i < |z.transitions| && Jump(z, i) > HOUR
      ensures exists local :: OrElse(Earliest(z, local), Earliest(z, local + HOUR)).None?
    {
      ResolveInGap(z, i, ClockBefore(z, i));
    }
  }

  /** In a gap of at most an hour the result is never before the transition, and within an hour of it. */
  lemma GapLandsAfterTransition(z: Zone, i: nat, local: int)
    requires Spaced(z) && InGap(z, i, local) && Jump(z, i) <= 3_600_000_000_000
    ensures At(z, i) <= Resolve(z, local) < At(z, i) + 3_600_000_000_000
    ensures Resolve(z, local) == local - Offset(z, i) + (3_600_000_000_000 - Jump(z, i))
  {
    ResolveInGap(z, i, local);
  }

  // ----- order ----------------------------------------------------------------------

  lemma {:induction false} SegmentOfEarliest(z: Zone, local: int, k: nat) returns (s: nat)
    requires k <= |z.transitions| && EarliestFrom(z, local, k).Some?
    ensures k <= s <= |z.transitions| && InSegment(z, s, local - Offset(z, s))
    ensures EarliestFrom(z, local, k) == Some(local - Offset(z, s))
    ensures forall j | k <= j < s :: !InSegment(z, j, local - Offset(z, j))
    decreases |z.transitions| - k
  {
    if InSegment(z, k, local - Offset(z, k)) {
      s := k;
    } else {
      s := SegmentOfEarliest(z, local, k + 1);
    }
  }

  /** On local times that exist, resolution is strictly monotone: later on the clock is later in time. */
  lemma ResolveStrictlyMonotone(z: Zone, a: int, b: int)
    requires Spaced(z) && Exists(z, a) && Exists(z, b) && a < b
    ensures Resolve(z, a) < Resolve(z, b)
  {
    EarliestIsFirst(z, a);
    EarliestIsFirst(z, b);
    var s := SegmentOfEarliest(z, a, 0);
    var r := SegmentOfEarliest(z, b, 0);
    if r < s {
      // `a` was not found in segment `r`, so it precedes that segment and every later one.
      assert !InSegment(z, r, a - Offset(z, r));
      if r > 0 {
        ClocksMonotone(z, r - 1, s - 1);
      }
    } else if s < r {
      assert At(z, s) <= At(z, r - 1);
    }
  }
}
