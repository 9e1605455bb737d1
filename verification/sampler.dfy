/**
  The waypoint sampler of the route: a walk over the steps of the first
  route that carries a running mileage and, at every step where that
  mileage has reached the interval, records the step's end coordinate and
  takes one interval off the running mileage.

  The walk tests the threshold once per step (an `if`, not a loop), so a
  step emits at most one waypoint however long it is.
 */
module Sampler {
  import opened Common
  import opened Routes

  /** The walk's state: miles carried since the last emission, and the waypoints so far. */
  datatype Progress = Progress(carried: real, waypoints: seq<Coord>)

  /** The state every call starts from: nothing carried, no waypoints. */
  const Start: Progress := Progress(0.0, [])

  /** The miles taken off the running mileage by `n` emissions, one interval each. */
  function Deducted(n: nat, interval: real): real {
    if n == 0 then 0.0 else Deducted(n - 1, interval) + interval
  }

  /**
    One step of the walk. Miles are conserved: what is carried plus one
    interval per waypoint grows by exactly the step's miles. A waypoint is
    added, and it is the step's end, exactly when the carried miles reach
    the interval.
   */
  function Visit(p: Progress, s: Step, interval: real): (r: Progress)
    ensures r.carried + Deducted(|r.waypoints|, interval)
         == p.carried + Miles(s) + Deducted(|p.waypoints|, interval)
    ensures r.waypoints == p.waypoints || r.waypoints == p.waypoints + [s.endLocation]
    ensures r.waypoints != p.waypoints <==> p.carried + Miles(s) >= interval
  {
    var carried := p.carried + Miles(s);
    if carried >= interval then
      Progress(carried - interval, p.waypoints + [s.endLocation])
    else
      Progress(carried, p.waypoints)
  }

  /**
    The walk over a run of steps, in order. It only ever appends to the
    waypoints it is given, and at most one per step.
   */
  function Walk(steps: seq<Step>, interval: real, p: Progress): (r: Progress)
    ensures |p.waypoints| <= |r.waypoints| <= |p.waypoints| + |steps|
    ensures r.waypoints[..|p.waypoints|] == p.waypoints
    decreases |steps|
  {
    if |steps| == 0 then p
    else Walk(steps[1..], interval, Visit(p, steps[0], interval))
  }

  /** Walking two runs one after the other is walking their concatenation. */
  lemma {:induction false} WalkAppend(a: seq<Step>, b: seq<Step>, interval: real, p: Progress)
    ensures Walk(a + b, interval, p) == Walk(b, interval, Walk(a, interval, p))
    decreases |a|
  {
    if |a| == 0 {
      assert a + b == b;
    } else {
      assert (a + b)[1..] == a[1..] + b;
      WalkAppend(a[1..], b, interval, Visit(p, a[0], interval));
    }
  }

  /** Why sampling fails: the directions answer holds no route to index. */
  datatype SampleError = NoRoute

  /** The steps of the first route, in traversal order. */
  function FirstRouteSteps(d: Directions): seq<Step>
    requires |d.routes| > 0
  {
    Flatten(d.routes[0].legs)
  }

  /**
    The waypoints sampled from the first route of `d` at `interval` miles.
    Indexing the first route fails when there is none.
   */
  function SampleRoute(d: Directions, interval: real): (r: Result<seq<Coord>, SampleError>)
    ensures r.Failure? <==> |d.routes| == 0
    ensures r.Success? ==> |r.value| <= |FirstRouteSteps(d)|
    ensures r.Success? && FirstRouteSteps(d) == [] ==> r.value == []
  {
    if |d.routes| == 0 then Failure(NoRoute)
    else Success(Walk(FirstRouteSteps(d), interval, Start).waypoints)
  }

  /** The route object: its two free-text ends and the waypoints last computed. */
  datatype RouteObj = RouteObj(startloc: string, endloc: string, waypoints: seq<Coord>)

  /**
    The route object after a sampling call, and whether the call raised
    (indexing a missing first route). The waypoints are cleared before the
    index is taken, so a raising call still leaves them empty.
   */
  datatype Calculated = Calculated(route: RouteObj, raised: bool)

  /**
    The sampler as the route object runs it: clear the waypoints and the
    running mileage, then a loop over the legs of the first route and,
    inside it, a loop over each leg's steps.

    The resulting waypoints are those of `SampleRoute`, whatever waypoints
    the object held before: the call depends only on the directions and the
    interval, so repeating it gives the same list. The ends are unchanged.
   */
  method CalculateWaypoints(route: RouteObj, d: Directions, interval: real) returns (r: Calculated)
    ensures r.route.startloc == route.startloc && r.route.endloc == route.endloc
    ensures r.raised <==> SampleRoute(d, interval).Failure?
    ensures r.raised ==> r.route.waypoints == []
    ensures !r.raised ==> r.route.waypoints == SampleRoute(d, interval).value
  {
    var waypoints: seq<Coord> := [];
    var carried: real := 0.0;
    if |d.routes| == 0 {
      return Calculated(route.(waypoints := waypoints), true);
    }
    var legs := d.routes[0].legs;
    var i := 0;
    while i < |legs|
      invariant 0 <= i <= |legs|
      invariant Progress(carried, waypoints) == Walk(Flatten(legs[..i]), interval, Start)
    {
      var steps := legs[i].steps;
      var j := 0;
      assert Flatten(legs[..i]) + steps[..j] == Flatten(legs[..i]);
      while j < |steps|
        invariant 0 <= j <= |steps|
        invariant Progress(carried, waypoints) == Walk(Flatten(legs[..i]) + steps[..j], interval, Start)
      {
        var before := Flatten(legs[..i]) + steps[..j];
        carried := carried + steps[j].meters / MetersPerMile;
        if carried >= interval {
          waypoints := waypoints + [steps[j].endLocation];
          carried := carried - interval;
        }
        WalkAppend(before, [steps[j]], interval, Start);
        assert before + [steps[j]] == Flatten(legs[..i]) + steps[..j + 1];
        j := j + 1;
      }
      assert steps[..j] == steps;
      FlattenSnoc(legs, i);
      i := i + 1;
    }
    assert legs[..i] == legs;
    r := Calculated(route.(waypoints := waypoints), false);
  }
}
