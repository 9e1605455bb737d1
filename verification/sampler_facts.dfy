/**
  Properties of the waypoint sampler: the mileage it carries, how many
  waypoints it can emit, which steps emit them and in what order, and
  concrete routes that show how the single per-step test behaves.
 */
module SamplerFacts {
  import opened Common
  import opened Routes
  import opened Sampler

  /** The waypoints a fresh call samples from a flat run of steps. */
  function Sampled(steps: seq<Step>, interval: real): seq<Coord> {
    Walk(steps, interval, Start).waypoints
  }

  /**
    Whatever waypoints are already held stay in front, untouched, and the
    walk appends the same list it would append to an empty one: clearing
    the list first is what makes a call independent of earlier calls.
   */
  lemma {:induction false} WalkOnlyAppends(steps: seq<Step>, interval: real, carried: real, prior: seq<Coord>)
    ensures Walk(steps, interval, Progress(carried, prior)).waypoints
         == prior + Walk(steps, interval, Progress(carried, [])).waypoints
    ensures Walk(steps, interval, Progress(carried, prior)).carried
         == Walk(steps, interval, Progress(carried, [])).carried
    decreases |steps|
  {
    if |steps| > 0 {
      var rest := steps[1..];
      var withPrior := Visit(Progress(carried, prior), steps[0], interval);
      var clean := Visit(Progress(carried, []), steps[0], interval);
      assert withPrior == Progress(clean.carried, prior + clean.waypoints);
      var tail := Walk(rest, interval, Progress(clean.carried, [])).waypoints;
      var tailCarried := Walk(rest, interval, Progress(clean.carried, [])).carried;
      assert Walk(rest, interval, withPrior).waypoints == (prior + clean.waypoints) + tail
          && Walk(rest, interval, withPrior).carried == tailCarried by {
        WalkOnlyAppends(rest, interval, clean.carried, prior + clean.waypoints);
      }
      assert Walk(rest, interval, clean).waypoints == clean.waypoints + tail
          && Walk(rest, interval, clean).carried == tailCarried by {
        WalkOnlyAppends(rest, interval, clean.carried, clean.waypoints);
      }
      assert (prior + clean.waypoints) + tail == prior + (clean.waypoints + tail);
    }
  }

  /**
    The accumulator invariant: after any run of steps, the miles carried
    plus one interval per waypoint emitted equal the miles carried in plus
    the miles walked.
   */
  lemma {:induction false} CarriedConservesMiles(steps: seq<Step>, interval: real, p: Progress)
    ensures Walk(steps, interval, p).carried + Deducted(|Walk(steps, interval, p).waypoints|, interval)
         == p.carried + TotalMiles(steps) + Deducted(|p.waypoints|, interval)
    decreases |steps|
  {
    if |steps| > 0 {
      CarriedConservesMiles(steps[1..], interval, Visit(p, steps[0], interval));
    }
  }

  /**
    From a fresh start, after any prefix of the steps the carried mileage is
    the prefix's total miles less one interval per waypoint emitted so far.
   */
  lemma CarriedAfterPrefix(steps: seq<Step>, interval: real, m: nat)
    requires m <= |steps|
    ensures Walk(steps[..m], interval, Start).carried
         == TotalMiles(steps[..m]) - interval * |Sampled(steps[..m], interval)| as real
  {
    CarriedConservesMiles(steps[..m], interval, Start);
    DeductedIsProduct(|Sampled(steps[..m], interval)|, interval);
  }

  /** `n` deductions of one interval take off `n` intervals. */
  lemma {:induction false} DeductedIsProduct(n: nat, interval: real)
    ensures Deducted(n, interval) == interval * n as real
  {
    if n > 0 {
      DeductedIsProduct(n - 1, interval);
    }
  }

  /** With a positive interval and no negative step, the carried mileage never goes negative. */
  lemma {:induction false} CarriedNonNegative(steps: seq<Step>, interval: real, p: Progress)
    requires interval > 0.0
    requires p.carried >= 0.0
    requires NonNegativeDistances(steps)
    ensures Walk(steps, interval, p).carried >= 0.0
    decreases |steps|
  {
    if |steps| > 0 {
      assert steps[0].meters >= 0.0;
      assert NonNegativeDistances(steps[1..]) by {
        forall i | 0 <= i < |steps[1..]| ensures steps[1..][i].meters >= 0.0 {
          assert steps[1..][i] == steps[i + 1];
        }
      }
      CarriedNonNegative(steps[1..], interval, Visit(p, steps[0], interval));
    }
  }

  /** For a positive `x`, `n * x <= t` gives `n <= floor(t / x)`. */
  lemma CountUnderFloor(n: nat, x: real, t: real)
    requires x > 0.0
    requires x * n as real <= t
    ensures n <= (t / x).Floor
  {
    var q := t / x;
    assert q * x == t;
    assert n as real <= q;
  }

  /** With a positive interval and no negative step, the deductions never exceed the miles walked. */
  lemma DeductionsWithinTotal(steps: seq<Step>, interval: real)
    requires interval > 0.0
    requires NonNegativeDistances(steps)
    ensures Deducted(|Sampled(steps, interval)|, interval) <= TotalMiles(steps)
  {
    CarriedConservesMiles(steps, interval, Start);
    CarriedNonNegative(steps, interval, Start);
  }

  /**
    Each waypoint costs one whole interval of walked miles, so a route of
    `D` miles yields at most `floor(D / interval)` waypoints (and possibly
    fewer, since a step emits at most one).
   */
  lemma CountBound(steps: seq<Step>, interval: real)
    requires interval > 0.0
    requires NonNegativeDistances(steps)
    ensures interval * |Sampled(steps, interval)| as real <= TotalMiles(steps)
    ensures |Sampled(steps, interval)| <= (TotalMiles(steps) / interval).Floor
  {
    DeductionsWithinTotal(steps, interval);
    DeductionsToFloor(|Sampled(steps, interval)|, interval, TotalMiles(steps));
  }

  /** `n` deductions that fit within `total` are at most `floor(total / interval)`. */
  lemma DeductionsToFloor(n: nat, interval: real, total: real)
    requires interval > 0.0
    requires Deducted(n, interval) <= total
    ensures interval * n as real <= total
    ensures n <= (total / interval).Floor
  {
    DeductedIsProduct(n, interval);
    CountUnderFloor(n, interval, total);
  }

  /** A route shorter than one interval, the empty route included, yields no waypoint. */
  lemma ShortRouteYieldsNothing(steps: seq<Step>, interval: real)
    requires interval > 0.0
    requires NonNegativeDistances(steps)
    requires TotalMiles(steps) < interval
    ensures Sampled(steps, interval) == []
  {
    DeductionsWithinTotal(steps, interval);
    DeductedGrows(|Sampled(steps, interval)|, interval);
  }

  /** Deductions of a positive interval only add up. */
  lemma {:induction false} DeductedGrows(n: nat, interval: real)
    requires interval > 0.0
    ensures n == 0 || Deducted(n, interval) >= interval
  {
    if n > 1 {
      DeductedGrows(n - 1, interval);
    }
  }

  /** Step `i` emits: the mileage carried into it plus its own miles reach the interval. */
  predicate EmitsAt(steps: seq<Step>, interval: real, i: nat)
    requires i < |steps|
  {
    Walk(steps[..i], interval, Start).carried + Miles(steps[i]) >= interval
  }

  /**
    Step `i` in traversal order adds exactly one waypoint, its own end, when
    it emits, and leaves the list alone otherwise.
   */
  lemma StepEmitsIff(steps: seq<Step>, interval: real, i: nat)
    requires i < |steps|
    ensures EmitsAt(steps, interval, i) ==>
      Sampled(steps[..i + 1], interval) == Sampled(steps[..i], interval) + [steps[i].endLocation]
    ensures !EmitsAt(steps, interval, i) ==>
      Sampled(steps[..i + 1], interval) == Sampled(steps[..i], interval)
  {
    assert steps[..i + 1] == steps[..i] + [steps[i]];
    WalkAppend(steps[..i], [steps[i]], interval, Start);
  }

  /** The positions of the emitting steps, in increasing order. */
  function EmitIndices(steps: seq<Step>, interval: real): seq<nat>
    decreases |steps|
  {
    if |steps| == 0 then []
    else
      var n := |steps| - 1;
      EmitIndices(steps[..n], interval) + (if EmitsAt(steps, interval, n) then [n] else [])
  }

  /** Whether a step emits depends only on the steps up to it. */
  lemma EmitsAtPrefix(steps: seq<Step>, interval: real, m: nat, i: nat)
    requires i < m <= |steps|
    ensures EmitsAt(steps[..m], interval, i) == EmitsAt(steps, interval, i)
  {
    assert steps[..m][..i] == steps[..i];
  }

  /**
    The waypoints are exactly the end coordinates of the emitting steps,
    in traversal order: the k-th waypoint is the end of the k-th emitting
    step, the emitting positions increase, and a step's position is among
    them exactly when it emits.
   */
  lemma {:induction false} WaypointsAreEmittingStepEnds(steps: seq<Step>, interval: real)
    ensures |EmitIndices(steps, interval)| == |Sampled(steps, interval)|
    ensures forall k :: 0 <= k < |EmitIndices(steps, interval)| ==>
      EmitIndices(steps, interval)[k] < |steps| &&
      Sampled(steps, interval)[k] == steps[EmitIndices(steps, interval)[k]].endLocation
    ensures forall k, l :: 0 <= k < l < |EmitIndices(steps, interval)| ==>
      EmitIndices(steps, interval)[k] < EmitIndices(steps, interval)[l]
    ensures forall i :: 0 <= i < |steps| ==>
      (EmitsAt(steps, interval, i) <==> i in EmitIndices(steps, interval))
    decreases |steps|
  {
    if |steps| > 0 {
      var n := |steps| - 1;
      var p := steps[..n];
      WaypointsAreEmittingStepEnds(p, interval);
      StepEmitsIff(steps, interval, n);
      assert steps[..n + 1] == steps;
      forall i | 0 <= i < n
        ensures EmitsAt(steps, interval, i) == EmitsAt(p, interval, i)
      {
        EmitsAtPrefix(steps, interval, n, i);
      }
    }
  }

  /**
    The k-th waypoint is emitted only once the steps walked so far total at
    least k intervals: whenever the first `m` steps have emitted `k`
    waypoints or more, those `m` steps are at least `k` intervals long.
   */
  lemma KthWaypointNeedsKIntervals(steps: seq<Step>, interval: real, m: nat, k: nat)
    requires interval > 0.0
    requires NonNegativeDistances(steps)
    requires m <= |steps|
    requires k <= |Sampled(steps[..m], interval)|
    ensures interval * k as real <= TotalMiles(steps[..m])
  {
    var pre := steps[..m];
    var n := |Sampled(pre, interval)|;
    PrefixNonNegative(steps, m);
    DeductionsWithinTotal(pre, interval);
    DeductedMonotone(k, n, interval);
    DeductedIsProduct(k, interval);
  }

  /** More deductions of a positive interval take off more miles. */
  lemma {:induction false} DeductedMonotone(a: nat, b: nat, interval: real)
    requires interval > 0.0 && a <= b
    ensures Deducted(a, interval) <= Deducted(b, interval)
    decreases b
  {
    if a < b {
      DeductedMonotone(a, b - 1, interval);
    }
  }

  /** A prefix of steps with no negative distance has none either. */
  lemma PrefixNonNegative(steps: seq<Step>, m: nat)
    requires NonNegativeDistances(steps)
    requires m <= |steps|
    ensures NonNegativeDistances(steps[..m])
  {
    forall i | 0 <= i < m ensures steps[..m][i].meters >= 0.0 {
      assert steps[..m][i] == steps[i];
    }
  }

  /** Every prefix of the walk has emitted no more waypoints than it has whole intervals. */
  lemma PrefixCountBound(steps: seq<Step>, interval: real, m: nat)
    requires interval > 0.0
    requires NonNegativeDistances(steps)
    requires m <= |steps|
    ensures interval * |Sampled(steps[..m], interval)| as real <= TotalMiles(steps[..m])
  {
    PrefixNonNegative(steps, m);
    CountBound(steps[..m], interval);
  }

  /** Every waypoint is the end coordinate of some step of the route. */
  lemma EveryWaypointIsAStepEnd(steps: seq<Step>, interval: real, k: nat)
    requires k < |Sampled(steps, interval)|
    ensures exists j :: 0 <= j < |steps| && Sampled(steps, interval)[k] == steps[j].endLocation
  {
    WaypointsAreEmittingStepEnds(steps, interval);
    var j := EmitIndices(steps, interval)[k];
    assert Sampled(steps, interval)[k] == steps[j].endLocation;
  }

  /**
    A single step of three intervals yields one waypoint, not three, and
    leaves two intervals carried: the carried mileage can exceed the
    interval.
   */
  lemma LongStepEmitsOnce(interval: real, loc: Coord)
    requires interval > 0.0
    ensures Walk([Step(3.0 * interval * MetersPerMile, loc)], interval, Start)
         == Progress(2.0 * interval, [loc])
    ensures (TotalMiles([Step(3.0 * interval * MetersPerMile, loc)]) / interval).Floor == 3
  {
  }

  /**
    A 60-mile step followed by a 1-mile step, at 25-mile intervals, emits
    at both: consecutive waypoints one mile apart.
   */
  lemma ConsecutiveWaypointsCanBeClose(a: Coord, b: Coord)
    ensures Sampled([Step(60.0 * MetersPerMile, a), Step(MetersPerMile, b)], 25.0) == [a, b]
  {
    var s0 := Step(60.0 * MetersPerMile, a);
    var s1 := Step(MetersPerMile, b);
    assert Miles(s0) == 60.0;
    assert Miles(s1) == 1.0;
    var after0 := Visit(Start, s0, 25.0);
    assert after0 == Progress(35.0, [a]);
    assert Visit(after0, s1, 25.0) == Progress(11.0, [a, b]);
    assert [s0, s1][1..] == [s1];
    assert Walk([s1], 25.0, after0) == Progress(11.0, [a, b]);
  }

  /** A one-step route of exactly 25 miles (40233.5 m) at 25-mile intervals yields its end. */
  lemma ExactIntervalScenario()
    ensures SampleRoute(Directions([RouteData([Leg([Step(40233.5, Coord(1.0, 1.0))])])]), 25.0)
         == Success([Coord(1.0, 1.0)])
  {
  }
}
