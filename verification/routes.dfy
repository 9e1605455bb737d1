/**
  The directions data the waypoint sampler reads: the routing provider's
  answer as a list of routes, each a list of legs, each a list of steps.
  Only a step's distance in metres and its end coordinate are consumed.
 */
module Routes {

  /** Metres in one statute mile, the factor the sampler divides step distances by. */
  const MetersPerMile: real := 1609.34

  /** A latitude/longitude pair, passed through without range checks. */
  datatype Coord = Coord(lat: real, lng: real)

  /** One step of a leg: its length in metres and where it ends. */
  datatype Step = Step(meters: real, endLocation: Coord)

  datatype Leg = Leg(steps: seq<Step>)

  datatype RouteData = RouteData(legs: seq<Leg>)

  /** The decoded directions answer; only the first route is ever read. */
  datatype Directions = Directions(routes: seq<RouteData>)

  /** A step's length converted from metres to miles. */
  function Miles(s: Step): real {
    s.meters / MetersPerMile
  }

  /** The length in miles of a run of steps. */
  function TotalMiles(steps: seq<Step>): real {
    if |steps| == 0 then 0.0 else Miles(steps[0]) + TotalMiles(steps[1..])
  }

  /** Every step length is non-negative, as the routing provider reports them. */
  predicate NonNegativeDistances(steps: seq<Step>) {
    forall i :: 0 <= i < |steps| ==> steps[i].meters >= 0.0
  }

  /** The steps of all legs, legs first and then steps within each leg. */
  function Flatten(legs: seq<Leg>): (steps: seq<Step>)
    ensures |legs| == 0 ==> steps == []
  {
    if |legs| == 0 then [] else legs[0].steps + Flatten(legs[1..])
  }

  /** Visiting one more leg appends exactly that leg's steps to the traversal. */
  lemma {:induction false} FlattenSnoc(legs: seq<Leg>, i: nat)
    requires i < |legs|
    ensures Flatten(legs[..i + 1]) == Flatten(legs[..i]) + legs[i].steps
    decreases i
  {
    if i == 0 {
      assert legs[..1][1..] == [];
    } else {
      var tail := legs[1..];
      assert legs[..i + 1][1..] == tail[..i];
      assert legs[..i][1..] == tail[..i - 1];
      FlattenSnoc(tail, i - 1);
    }
  }
}
