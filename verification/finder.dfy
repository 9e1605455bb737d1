/**
  The program's pipeline after its inputs are known: fetch the route, stop
  if that failed, sample waypoints every 25 miles, search around each
  waypoint with the off-path distance converted to metres, and print one
  line per point of interest found.
 */
module Finder {
  import opened Common
  import opened Routes
  import opened Sampler
  import opened SamplerFacts
  import opened Places

  /** The sampling interval the program always uses, in miles. */
  const IntervalMiles: real := 25.0

  /** The line printed for a point of interest that has no name. */
  const NoName: string := "No name available"

  /** A decoded HTTP reply: the status code and the JSON body. */
  datatype HttpReply<T> = HttpReply(status: int, body: T)

  /** A point of interest as the places provider lists it; the name may be missing. */
  datatype Poi = Poi(name: Option<string>)

  /** The route fetch keeps the body of a status-200 reply and yields nothing otherwise. */
  function FetchRoute(reply: HttpReply<Directions>): (r: Option<Directions>)
    ensures r.Some? <==> reply.status == StatusOk
    ensures r.Some? ==> r.value == reply.body
  {
    if reply.status == StatusOk then Some(reply.body) else None
  }

  /** The printed form of one point of interest. */
  function DisplayName(p: Poi): string {
    match p.name
    case Some(n) => n
    case None => NoName
  }

  /**
    The printed output: one line per point of interest, in order, holding
    its name, or the placeholder when it has none.
   */
  function OutputLines(pois: seq<Poi>): (lines: seq<string>)
    ensures |lines| == |pois|
    ensures forall i :: 0 <= i < |pois| ==>
      (pois[i].name.Some? ==> lines[i] == pois[i].name.value) &&
      (pois[i].name.None? ==> lines[i] == NoName)
    decreases |pois|
  {
    if |pois| == 0 then [] else [DisplayName(pois[0])] + OutputLines(pois[1..])
  }

  /**
    How a run ends: the route fetch failed with the given status (nothing
    is searched), the directions held no route (indexing it raised), or the
    run finished after issuing the given searches and printing the lines.
   */
  datatype RunResult =
    | RouteFetchFailed(status: int)
    | NoRouteRaised
    | Finished(searches: seq<Request>, lines: seq<string>)

  /** The searcher the program builds: the off-path distance goes from miles to metres. */
  function Searcher(waypoints: seq<Coord>, keyword: string, distOffPath: real): PoiLoc {
    PoiLoc(waypoints, keyword, distOffPath * MetersPerMile)
  }

  /**
    One run of the program on a route reply, a keyword, an off-path
    distance in miles and the places provider.
   */
  function Main(routeReply: HttpReply<Directions>, keyword: string, distOffPath: real,
                provider: Provider<Poi>): (r: RunResult)
    ensures r.RouteFetchFailed? <==> routeReply.status != StatusOk
    ensures r.RouteFetchFailed? ==> r.status == routeReply.status
    ensures r.NoRouteRaised? <==> routeReply.status == StatusOk && |routeReply.body.routes| == 0
    ensures r.Finished? ==>
      |r.searches| == |Sampled(FirstRouteSteps(routeReply.body), IntervalMiles)| &&
      forall i :: 0 <= i < |r.searches| ==>
        r.searches[i].location == Sampled(FirstRouteSteps(routeReply.body), IntervalMiles)[i] &&
        r.searches[i].radius == distOffPath * MetersPerMile &&
        r.searches[i].keyword == keyword
    ensures r.Finished? ==>
      r.lines == OutputLines(Collect(seq(|r.searches|, i requires 0 <= i < |r.searches| =>
                                           provider(i, r.searches[i]))))
  {
    match FetchRoute(routeReply)
    case None => RouteFetchFailed(routeReply.status)
    case Some(d) =>
      match SampleRoute(d, IntervalMiles)
      case Failure(_) => NoRouteRaised
      case Success(waypoints) =>
        var searcher := Searcher(waypoints, keyword, distOffPath);
        var searches := seq(|waypoints|, i requires 0 <= i < |waypoints| => RequestAt(searcher, waypoints[i]));
        assert Replies(searcher, provider)
            == seq(|searches|, i requires 0 <= i < |searches| => provider(i, searches[i]));
        Finished(searches, OutputLines(SearchWaypoints(searcher, provider)))
  }

  /**
    A finished run over a route of `D` miles, with no negative step,
    issues at most `floor(D / 25)` searches.
   */
  lemma MainSearchBound(routeReply: HttpReply<Directions>, keyword: string, distOffPath: real,
                        provider: Provider<Poi>)
    requires routeReply.status == StatusOk && |routeReply.body.routes| > 0
    requires NonNegativeDistances(FirstRouteSteps(routeReply.body))
    ensures Main(routeReply, keyword, distOffPath, provider).Finished?
    ensures |Main(routeReply, keyword, distOffPath, provider).searches|
         <= (TotalMiles(FirstRouteSteps(routeReply.body)) / IntervalMiles).Floor
  {
    CountBound(FirstRouteSteps(routeReply.body), IntervalMiles);
  }

  /**
    The printed lines are exactly the names of the points of interest that
    successful searches along the route listed: every line names one of
    them, and every one of them is printed.
   */
  lemma PrintedLinesMatchSuccessfulSearches(routeReply: HttpReply<Directions>, keyword: string,
                                            distOffPath: real, provider: Provider<Poi>)
    requires Main(routeReply, keyword, distOffPath, provider).Finished?
    ensures var r := Main(routeReply, keyword, distOffPath, provider);
      forall line :: line in r.lines ==>
        (exists i, p ::
           0 <= i < |r.searches| && provider(i, r.searches[i]).status == StatusOk &&
           p in provider(i, r.searches[i]).results && line == DisplayName(p))
    ensures var r := Main(routeReply, keyword, distOffPath, provider);
      forall i, p ::
        (0 <= i < |r.searches| && provider(i, r.searches[i]).status == StatusOk &&
         p in provider(i, r.searches[i]).results) ==> DisplayName(p) in r.lines
  {
    var r := Main(routeReply, keyword, distOffPath, provider);
    var d := routeReply.body;
    var waypoints := Sampled(FirstRouteSteps(d), IntervalMiles);
    var searcher := Searcher(waypoints, keyword, distOffPath);
    var pois := SearchWaypoints(searcher, provider);
    assert r.lines == OutputLines(pois);
    forall line | line in r.lines
      ensures (exists i, p ::
                 0 <= i < |r.searches| && provider(i, r.searches[i]).status == StatusOk &&
                 p in provider(i, r.searches[i]).results && line == DisplayName(p))
    {
      var j :| 0 <= j < |r.lines| && r.lines[j] == line;
      var p := pois[j];
      assert line == DisplayName(p);
      assert p in pois;
      var i :| 0 <= i < |waypoints| && Replies(searcher, provider)[i].status == StatusOk
        && p in Replies(searcher, provider)[i].results;
      assert r.searches[i] == RequestAt(searcher, waypoints[i]);
    }
    forall i, p | 0 <= i < |r.searches| && provider(i, r.searches[i]).status == StatusOk &&
                  p in provider(i, r.searches[i]).results
      ensures DisplayName(p) in r.lines
    {
      assert r.searches[i] == RequestAt(searcher, waypoints[i]);
      assert Replies(searcher, provider)[i] == provider(i, r.searches[i]);
      assert p in pois;
      var j :| 0 <= j < |pois| && pois[j] == p;
      assert r.lines[j] == DisplayName(p);
    }
  }
}
