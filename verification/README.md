# Waypoint sampling and nearby search along a driving route

This project models the core of a small tool that finds points of interest
along a driving route. The tool asks a routing provider for directions
between two places. It samples waypoints along the first route every 25
miles. It then asks a places provider for matches to a keyword around each
waypoint and prints the name of every match.

The centre of the model is the waypoint sampler (`Route.calculate_waypoints`).
It walks the legs of the first route, and each leg's steps, in order. It
converts each step's length from metres to miles by dividing by 1609.34 and
adds it to a running mileage. When that mileage reaches the interval, it
records the step's end coordinate and takes one interval off the mileage.
The test is a single `if` per step, so a step emits at most one waypoint
however long it is, and the running mileage can exceed the interval.

The nearby search (`POIloc.search_nearby` / `search_waypoints`) is a fold
over the waypoints. Each call's reply is an abstract value: a status and a
result list. A reply with status 200 contributes its results and any other
reply contributes nothing. The lists are concatenated in waypoint order.
The output step prints each point of interest's name, or
`No name available` when it has none.

Modules:

- `Common`: `Option` and `Result`.
- `Routes`: the directions data (coordinates, steps, legs, routes), the
  metre-to-mile conversion and the flattening of legs into steps.
- `Sampler`: the one-step update `Visit`, the walk `Walk`, the sampled
  waypoints of the first route, and the route object's nested-loop method
  `CalculateWaypoints`.
- `SamplerFacts`: properties of the sampler. They cover the accumulator
  invariant, the count bound, which steps emit, waypoint order, and
  concrete routes.
- `Places`: the per-waypoint search and its fold.
- `Finder`: the route fetch, the printed lines, and one run of the pipeline.

Distances are `real`, which is exact rational arithmetic; the program's
floating-point rounding is abstracted away. The network calls are
parameters. The routing reply is given as a decoded `HttpReply`. The places
provider is a function from (call number, request) to reply, so every call
may be answered independently.

Consequences of the program's behaviour that the model makes explicit:

- A step emits at most one waypoint however long it is. The count is
  therefore at most `floor(total / interval)` and can be lower:
  `LongStepEmitsOnce` shows a step three intervals long yielding one
  waypoint and carrying two intervals on.
- Consecutive waypoints can be less than one interval apart:
  `ConsecutiveWaypointsCanBeClose` shows two waypoints one mile apart.
- The sampler has no guard on the interval, and the program always passes
  25. The sampler is defined for every interval and always finishes,
  because it has no inner loop. The bound lemmas assume `interval > 0`.
- The sampler indexes `routes[0]` after clearing the waypoints. A
  directions answer with no route therefore raises and leaves the
  waypoints empty. The model represents this as `raised` /
  `NoRouteRaised`.

## Model

| member | source | states |
|---|---|---|
| Routes.FlattenSnoc | authenticityfinder.py:123-124 | traversal order: visiting one more leg appends exactly that leg's steps after those of the earlier legs |
| Sampler.Visit | authenticityfinder.py:125-130 | one step conserves miles (carried plus one interval per waypoint grows by the step's miles); the list gains at most the step's end coordinate, and gains it exactly when carried plus step miles reach the interval |
| Sampler.Walk | authenticityfinder.py:123-130 | the walk only appends to the waypoints it is given, keeps them as a prefix, and adds at most one waypoint per step |
| Sampler.WalkAppend | authenticityfinder.py:123-130 | walking two runs of steps one after the other equals walking their concatenation, so the state after a prefix determines the rest |
| Sampler.SampleRoute | authenticityfinder.py:120-130 | sampling fails exactly when there is no first route; otherwise it yields at most one waypoint per step, and none for a route without steps |
| Sampler.CalculateWaypoints | authenticityfinder.py:108-130 | the nested leg/step loops produce the waypoints of the flat walk over the first route, whatever the object held before, so repeating the call gives the same list; a missing first route raises and leaves the list empty; start and end are unchanged |
| SamplerFacts.WalkOnlyAppends | authenticityfinder.py:120-121 | waypoints already held stay in front and the walk appends the same list it would append to an empty one, which is why clearing the list first makes the call independent of earlier calls |
| SamplerFacts.CarriedConservesMiles | authenticityfinder.py:121-130 | accumulator invariant: carried miles plus one interval per emitted waypoint equal the miles carried in plus the miles walked |
| SamplerFacts.CarriedAfterPrefix | authenticityfinder.py:121-130 | after any prefix of the steps, the carried mileage is that prefix's total miles minus interval times the number of waypoints emitted so far |
| SamplerFacts.CarriedNonNegative | authenticityfinder.py:126-130 | with a positive interval and no negative step, the carried mileage never goes negative |
| SamplerFacts.CountBound | authenticityfinder.py:125-130 | interval times the waypoint count is at most the route's total miles, so the count is at most floor(total / interval) |
| SamplerFacts.ShortRouteYieldsNothing | authenticityfinder.py:120-130 | a route shorter than one interval, the empty route included, yields no waypoint |
| SamplerFacts.StepEmitsIff | authenticityfinder.py:125-130 | step i adds exactly its own end coordinate when the mileage carried into it plus its miles reach the interval, and adds nothing otherwise |
| SamplerFacts.WaypointsAreEmittingStepEnds | authenticityfinder.py:123-129 | the waypoints are exactly the end coordinates of the emitting steps, in increasing step order; a step is among them if and only if it emits |
| SamplerFacts.EveryWaypointIsAStepEnd | authenticityfinder.py:129 | every waypoint is the end coordinate of some step of the route |
| SamplerFacts.KthWaypointNeedsKIntervals | authenticityfinder.py:126-130 | once the first m steps have emitted k waypoints, those m steps total at least k intervals |
| SamplerFacts.PrefixCountBound | authenticityfinder.py:126-130 | every prefix of the walk has emitted at most as many waypoints as it has whole intervals |
| SamplerFacts.LongStepEmitsOnce | authenticityfinder.py:128-130 | a single step of three intervals yields one waypoint and leaves two intervals carried, although floor(total / interval) is 3 |
| SamplerFacts.ConsecutiveWaypointsCanBeClose | authenticityfinder.py:128-130 | a 60-mile step then a 1-mile step at 25-mile intervals emit at both steps, so consecutive waypoints can be one mile apart |
| SamplerFacts.ExactIntervalScenario | authenticityfinder.py:123-130 | a one-step route of 40233.5 m (exactly 25 miles) at 25-mile intervals yields that step's end as its only waypoint |
| Places.SearchFrom | authenticityfinder.py:158-194 | the loop over the waypoints: the waypoint at position k is searched as call k through `SearchNearby`, its accepted results come first and those of later waypoints follow; the outcome is the in-order collection of the replies to those calls |
| Places.SearchWaypoints | authenticityfinder.py:183-194 | the result is the in-order collection of the replies, one call per waypoint; a point of interest is in it if and only if some waypoint's call succeeded and listed it; no waypoints means no results |
| Places.CollectAppend | authenticityfinder.py:190-194 | collecting two runs of replies concatenates their results in order |
| Places.CollectMembership | authenticityfinder.py:190-194 | an element is collected if and only if some successful reply lists it |
| Places.FailedReplySkipped | authenticityfinder.py:177-194 | a failed call contributes nothing and the search goes on: the result is the results before it followed by the results after it |
| Places.SearchSplits | authenticityfinder.py:190-194 | the search over the first k waypoints and then the rest yields the first part's results followed by the rest's |
| Places.MiddleFailureScenario | authenticityfinder.py:177-194 | with three waypoints whose middle search answers 500, the results are those of the first and third, in order |
| Finder.OutputLines | authenticityfinder.py:238-239 | one printed line per point of interest, in order: its name, or "No name available" when it has none |
| Finder.Main | authenticityfinder.py:223-239 | the run aborts with the route fetch status exactly when it is not 200, and then issues no search; it raises exactly when the directions hold no route; otherwise it searches once per 25-mile waypoint, in order, with the off-path distance converted to metres and the user's keyword, and prints the output lines of the accepted replies to those searches, collected in search order without deduplication |
| Finder.MainSearchBound | authenticityfinder.py:231-235 | a successful run over a route of D miles with no negative step issues at most floor(D / 25) searches |
| Finder.PrintedLinesMatchSuccessfulSearches | authenticityfinder.py:231-239 | every printed line is the display name of a point of interest listed by a successful search along the route, and every point of interest such a search lists is printed |

Helpers used by the rows above, without rows of their own:
`Routes.Miles` (metres to miles, authenticityfinder.py:125), `Routes.Flatten` (legs then
steps, authenticityfinder.py:123-124), `Places.Accepted` and `Places.SearchNearby` (one
search: results on status 200, nothing otherwise, authenticityfinder.py:158-181),
`Places.Collect` (the in-order fold, authenticityfinder.py:190-194), `Finder.FetchRoute`
(authenticityfinder.py:101-106), `Finder.DisplayName` (authenticityfinder.py:239) and `Finder.Searcher`
(off-path miles to metres, authenticityfinder.py:234).

## Left out

- HTTP transport (`requests.get`), URL building, `urllib.parse.quote`, the API key and JSON decoding are not modelled. They are network I/O and foreign libraries. Replies are given as decoded values.
- The interactive prompts, `argparse`, the all-or-nothing fallback to prompting, and the `float` conversion of the distance are not modelled. They are console input handling.
- Floating-point rounding is not modelled; distances are exact reals. The `"lat,lng"` text sent as the search location is not modelled either; the request carries the coordinate pair.
- An exception raised by an HTTP call (a connection error or a timeout) is not modelled. In the program it escapes the route fetch (authenticityfinder.py:101), or any nearby search (authenticityfinder.py:176), and ends the run before any line is printed (authenticityfinder.py:235-239). The provider here always answers, so `FailedReplySkipped`'s "the search goes on" and a run reaching `Finished` assume every call returns a reply.
- The messages printed on a failed route fetch or a failed search are not modelled. They are console output. Only the final lines naming the points of interest are.
- A status-200 route reply whose JSON body is empty (falsy) also stops the run in the code. This is not modelled, because the body is always decoded into directions.
- A JSON answer missing a field the code indexes (a `KeyError`) is not modelled. The directions and replies are typed records.
- A name field present but JSON `null` prints as `None` in the code. This is not modelled: a name is either a string or absent.
- SamplerFacts.KthWaypointNeedsKIntervals: states the bound over prefixes of the step list ("after m steps, k waypoints need k intervals") rather than naming the step that emits the k-th waypoint; the step positions are given separately by WaypointsAreEmittingStepEnds.
