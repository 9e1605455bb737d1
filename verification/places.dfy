/**
  The nearby search around each waypoint. Each waypoint costs one call to
  the places provider; a call answered with status 200 contributes its
  result list, any other status contributes nothing, and the per-waypoint
  lists are concatenated in waypoint order.
 */
module Places {
  import opened Routes

  /** The only status the search accepts. */
  const StatusOk: int := 200

  /** What one nearby-search call asks for: a centre, a radius in metres and a keyword. */
  datatype Request = Request(location: Coord, radius: real, keyword: string)

  /** What one call returns: the HTTP status and the decoded result list. */
  datatype Response<T> = Response(status: int, results: seq<T>)

  /**
    The places provider: its reply to the `n`-th call (counting from zero)
    when that call carries the given request. Calls are independent, so
    two calls with equal requests may be answered differently.
   */
  type Provider<T> = (nat, Request) -> Response<T>

  /** The searcher: the waypoints to visit, the keyword, and the radius in metres. */
  datatype PoiLoc = PoiLoc(waypoints: seq<Coord>, keyword: string, radius: real)

  /** The request for a search centred on `location`. */
  function RequestAt(searcher: PoiLoc, location: Coord): Request {
    Request(location, searcher.radius, searcher.keyword)
  }

  /** What one reply contributes: its results when the status is 200, nothing otherwise. */
  function Accepted<T>(resp: Response<T>): seq<T> {
    if resp.status == StatusOk then resp.results else []
  }

  /** The search around one location, made as call number `n`. */
  function SearchNearby<T>(searcher: PoiLoc, location: Coord, n: nat, provider: Provider<T>): (r: seq<T>)
    ensures provider(n, RequestAt(searcher, location)).status == StatusOk ==>
      r == provider(n, RequestAt(searcher, location)).results
    ensures provider(n, RequestAt(searcher, location)).status != StatusOk ==> r == []
  {
    Accepted(provider(n, RequestAt(searcher, location)))
  }

  /** The replies to the calls made for the waypoints, one call per waypoint, in order. */
  function Replies<T>(searcher: PoiLoc, provider: Provider<T>): (rs: seq<Response<T>>)
    ensures |rs| == |searcher.waypoints|
  {
    seq(|searcher.waypoints|, i requires 0 <= i < |searcher.waypoints| =>
      provider(i, RequestAt(searcher, searcher.waypoints[i])))
  }

  /** The accepted results of a run of replies, concatenated in order. */
  function Collect<T>(rs: seq<Response<T>>): seq<T>
    decreases |rs|
  {
    if |rs| == 0 then [] else Accepted(rs[0]) + Collect(rs[1..])
  }

  /**
    The loop over the waypoints from position `k` on: the waypoint at
    position `k` is searched as call number `k` and its results come first,
    then those of the waypoints after it. The outcome is the in-order
    collection of the replies to those calls.
   */
  function SearchFrom<T>(searcher: PoiLoc, provider: Provider<T>, k: nat): (r: seq<T>)
    requires k <= |searcher.waypoints|
    ensures r == Collect(Replies(searcher, provider)[k..])
    decreases |searcher.waypoints| - k
  {
    if k == |searcher.waypoints| then []
    else
      var rs := Replies(searcher, provider);
      assert rs[k..][1..] == rs[k + 1..];
      SearchNearby(searcher, searcher.waypoints[k], k, provider) + SearchFrom(searcher, provider, k + 1)
  }

  /**
    All points of interest found along the waypoints: the in-order
    collection of the replies, one call per waypoint, in which an element
    is found exactly when some waypoint's call succeeded and listed it.
   */
  function SearchWaypoints<T(!new)>(searcher: PoiLoc, provider: Provider<T>): (r: seq<T>)
    ensures r == Collect(Replies(searcher, provider))
    ensures forall x :: x in r ==>
      exists i :: 0 <= i < |searcher.waypoints| &&
        Replies(searcher, provider)[i].status == StatusOk && x in Replies(searcher, provider)[i].results
    ensures forall x, i ::
      (0 <= i < |searcher.waypoints| && Replies(searcher, provider)[i].status == StatusOk &&
       x in Replies(searcher, provider)[i].results) ==> x in r
    ensures |searcher.waypoints| == 0 ==> r == []
  {
    assert Replies(searcher, provider)[0..] == Replies(searcher, provider);
    CollectMembership(Replies(searcher, provider));
    SearchFrom(searcher, provider, 0)
  }

  /** Collecting two runs of replies is concatenating their collections. */
  lemma {:induction false} CollectAppend<T>(a: seq<Response<T>>, b: seq<Response<T>>)
    ensures Collect(a + b) == Collect(a) + Collect(b)
    decreases |a|
  {
    if |a| == 0 {
      assert a + b == b;
    } else {
      assert (a + b)[1..] == a[1..] + b;
      CollectAppend(a[1..], b);
    }
  }

  /** An element is collected exactly when some successful reply lists it. */
  lemma {:induction false} CollectMembership<T>(rs: seq<Response<T>>)
    ensures forall x :: x in Collect(rs) ==>
      exists i :: 0 <= i < |rs| && rs[i].status == StatusOk && x in rs[i].results
    ensures forall x, i :: 0 <= i < |rs| && rs[i].status == StatusOk && x in rs[i].results ==>
      x in Collect(rs)
    decreases |rs|
  {
    if |rs| > 0 {
      var rest := rs[1..];
      CollectMembership(rest);
      assert Collect(rs) == Accepted(rs[0]) + Collect(rest);
      forall x | x in Collect(rs)
        ensures exists i :: 0 <= i < |rs| && rs[i].status == StatusOk && x in rs[i].results
      {
        if x !in Accepted(rs[0]) {
          assert x in Collect(rest);
          assert exists i :: 0 <= i < |rest| && rest[i].status == StatusOk && x in rest[i].results;
          var i :| 0 <= i < |rest| && rest[i].status == StatusOk && x in rest[i].results;
          assert rs[i + 1] == rest[i];
        }
      }
      forall x, i | 0 <= i < |rs| && rs[i].status == StatusOk && x in rs[i].results
        ensures x in Collect(rs)
      {
        if i > 0 {
          assert rest[i - 1] == rs[i];
        }
      }
    }
  }

  /**
    A failed call contributes nothing and does not stop the search: the
    collection is that of the replies before it followed by that of the
    replies after it.
   */
  lemma FailedReplySkipped<T>(rs: seq<Response<T>>, i: nat)
    requires i < |rs|
    requires rs[i].status != StatusOk
    ensures Collect(rs) == Collect(rs[..i]) + Collect(rs[i + 1..])
  {
    var before, after := rs[..i], rs[i + 1..];
    assert Collect([rs[i]] + after) == Collect(after) by {
      assert ([rs[i]] + after)[1..] == after;
    }
    assert rs == before + ([rs[i]] + after);
    CollectAppend(before, [rs[i]] + after);
  }

  /**
    The search along waypoints `a` then `b` finds the results along `a`
    followed by those along `b`, the calls for `b` being numbered after
    those for `a`.
   */
  lemma SearchSplits<T(!new)>(searcher: PoiLoc, provider: Provider<T>, k: nat)
    requires k <= |searcher.waypoints|
    ensures SearchWaypoints(searcher, provider)
         == Collect(Replies(searcher, provider)[..k]) + Collect(Replies(searcher, provider)[k..])
  {
    var rs := Replies(searcher, provider);
    assert rs == rs[..k] + rs[k..];
    CollectAppend(rs[..k], rs[k..]);
  }

  /**
    Three waypoints whose middle search fails with status 500: the results
    are those of the first and the third, in that order.
   */
  lemma MiddleFailureScenario<T>(x: seq<T>, y: seq<T>, z: seq<T>)
    ensures Collect([Response(200, x), Response(500, y), Response(200, z)]) == x + z
  {
    var last := [Response(200, z)];
    var middle := [Response(500, y)] + last;
    var rs := [Response(200, x)] + middle;
    assert Collect(last) == z by {
      assert last[1..] == [];
    }
    assert Collect(middle) == z by {
      assert middle[1..] == last;
    }
    assert Collect(rs) == x + z by {
      assert rs[1..] == middle;
    }
    assert rs == [Response(200, x), Response(500, y), Response(200, z)];
  }
}
