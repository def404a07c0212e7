/**
 * The route store: the route filter under construction, the last built
 * route and the "building" flag.
 *
 * Every filter action of the store replaces `routeFilter` by a value computed
 * from the old one; those computations are the `With...` functions below, and
 * the methods of `RouteStore` assign their results. When there is no filter
 * yet (`null`), the five actions that write a field (include tags, exclude
 * tags, start point, end point, add waypoint) create one, with `[0, 0]`
 * (`Unset`) for each point they do not set, empty tag lists, and no
 * `waypoints` field unless a waypoint is added; removing a waypoint and
 * clearing the waypoints leave a missing filter missing.
 */
module Routes {
  import opened Types
  import opened Seqs

  /** `routeFilter.waypoints || []`: the waypoints, an absent field read as empty. */
  function WaypointsOf(f: RouteFilter): seq<Point>
  {
    if f.waypoints.Some? then f.waypoints.value else []
  }

  /** The filter every action creates when there is none, before it writes its own field. */
  const Blank: RouteFilter := RouteFilter([], [], Unset, Unset, None)

  /** `updateIncludeTags(tags)`. */
  function WithIncludeTags(f: Option<RouteFilter>, tags: seq<string>): (r: RouteFilter)
    ensures r.includeTags == tags
    ensures f.Some? ==> r.excludeTags == f.value.excludeTags && r.startPoint == f.value.startPoint
                        && r.endPoint == f.value.endPoint && r.waypoints == f.value.waypoints
    ensures f.None? ==> r.excludeTags == [] && r.startPoint == Unset && r.endPoint == Unset && r.waypoints == None
  {
    if f.Some? then f.value.(includeTags := tags)
    else RouteFilter(tags, [], Unset, Unset, None)
  }

  /** `updateExcludeTags(tags)`. */
  function WithExcludeTags(f: Option<RouteFilter>, tags: seq<string>): (r: RouteFilter)
    ensures r.excludeTags == tags
    ensures f.Some? ==> r.includeTags == f.value.includeTags && r.startPoint == f.value.startPoint
                        && r.endPoint == f.value.endPoint && r.waypoints == f.value.waypoints
    ensures f.None? ==> r.includeTags == [] && r.startPoint == Unset && r.endPoint == Unset && r.waypoints == None
  {
    if f.Some? then f.value.(excludeTags := tags)
    else RouteFilter([], tags, Unset, Unset, None)
  }

  /** `setStartPoint(p)`. */
  function WithStartPoint(f: Option<RouteFilter>, p: Point): (r: RouteFilter)
    ensures r.startPoint == p
    ensures f.Some? ==> r.includeTags == f.value.includeTags && r.excludeTags == f.value.excludeTags
                        && r.endPoint == f.value.endPoint && r.waypoints == f.value.waypoints
    ensures f.None? ==> r.includeTags == [] && r.excludeTags == [] && r.endPoint == Unset && r.waypoints == None
  {
    if f.Some? then f.value.(startPoint := p)
    else RouteFilter([], [], p, Unset, None)
  }

  /** `setEndPoint(p)`. */
  function WithEndPoint(f: Option<RouteFilter>, p: Point): (r: RouteFilter)
    ensures r.endPoint == p
    ensures f.Some? ==> r.includeTags == f.value.includeTags && r.excludeTags == f.value.excludeTags
                        && r.startPoint == f.value.startPoint && r.waypoints == f.value.waypoints
    ensures f.None? ==> r.includeTags == [] && r.excludeTags == [] && r.startPoint == Unset && r.waypoints == None
  {
    if f.Some? then f.value.(endPoint := p)
    else RouteFilter([], [], Unset, p, None)
  }

  /** `addWaypoint(p)`: appends `p`, reading an absent list as empty. */
  function WithWaypointAdded(f: Option<RouteFilter>, p: Point): (r: RouteFilter)
    ensures r.waypoints.Some?
    ensures f.Some? ==> r.waypoints.value == WaypointsOf(f.value) + [p]
                        && r.includeTags == f.value.includeTags && r.excludeTags == f.value.excludeTags
                        && r.startPoint == f.value.startPoint && r.endPoint == f.value.endPoint
    ensures f.None? ==> r.waypoints.value == [p] && r.includeTags == [] && r.excludeTags == []
                        && r.startPoint == Unset && r.endPoint == Unset
  {
    if f.Some? then f.value.(waypoints := Some(WaypointsOf(f.value) + [p]))
    else RouteFilter([], [], Unset, Unset, Some([p]))
  }

  /**
   * `removeWaypoint(index)`: drops the waypoint at `index`; an index out of
   * range, an absent `waypoints` field or an absent filter change nothing.
   */
  function WithWaypointRemoved(f: Option<RouteFilter>, index: int): (r: Option<RouteFilter>)
    ensures f.None? || f.value.waypoints.None? ==> r == f
    ensures f.Some? && f.value.waypoints.Some? ==>
      var w := f.value.waypoints.value;
      && r.Some? && r.value.waypoints.Some?
      && (0 <= index < |w| ==> r.value.waypoints.value == w[..index] + w[index + 1..])
      && (!(0 <= index < |w|) ==> r == f)
      && r.value.includeTags == f.value.includeTags && r.value.excludeTags == f.value.excludeTags
      && r.value.startPoint == f.value.startPoint && r.value.endPoint == f.value.endPoint
  {
    if f.Some? && f.value.waypoints.Some? then
      Some(f.value.(waypoints := Some(RemoveAt(f.value.waypoints.value, index))))
    else f
  }

  /** `clearWaypoints()`: an empty (present) waypoint list; no filter stays no filter. */
  function WithWaypointsCleared(f: Option<RouteFilter>): (r: Option<RouteFilter>)
    ensures f.None? ==> r.None?
    ensures f.Some? ==> r.Some? && r.value.waypoints == Some([])
                        && r.value.includeTags == f.value.includeTags && r.value.excludeTags == f.value.excludeTags
                        && r.value.startPoint == f.value.startPoint && r.value.endPoint == f.value.endPoint
  {
    if f.Some? then Some(f.value.(waypoints := Some([]))) else f
  }

  /**
   * The five filters the actions build when there is none are all the blank
   * filter with the action's own field written: lazy creation behaves as if
   * the store had started from `Blank`.
   */
  lemma LazyCreationIsBlank(tags: seq<string>, p: Point)
    ensures WithIncludeTags(None, tags) == WithIncludeTags(Some(Blank), tags)
    ensures WithExcludeTags(None, tags) == WithExcludeTags(Some(Blank), tags)
    ensures WithStartPoint(None, p) == WithStartPoint(Some(Blank), p)
    ensures WithEndPoint(None, p) == WithEndPoint(Some(Blank), p)
    ensures WithWaypointAdded(None, p) == WithWaypointAdded(Some(Blank), p)
  {
    assert WaypointsOf(Blank) + [p] == [p];
  }

  /** Setting the start and then the end gives the same filter as the other order. */
  lemma StartEndCommute(f: Option<RouteFilter>, a: Point, b: Point)
    ensures WithEndPoint(Some(WithStartPoint(f, a)), b) == WithStartPoint(Some(WithEndPoint(f, b)), a)
  {
  }

  /** One call of `setStartPoint` or `setEndPoint`. */
  datatype PointEdit = SetStart(p: Point) | SetEnd(p: Point)

  function ApplyEdit(f: Option<RouteFilter>, e: PointEdit): RouteFilter
  {
    match e
    case SetStart(p) => WithStartPoint(f, p)
    case SetEnd(p) => WithEndPoint(f, p)
  }

  /** The filter after the edits, in order. */
  function ApplyEdits(f: Option<RouteFilter>, edits: seq<PointEdit>): Option<RouteFilter>
    decreases |edits|
  {
    if edits == [] then f else ApplyEdits(Some(ApplyEdit(f, edits[0])), edits[1..])
  }

  /** The point of the last `SetStart` among the edits, `d` when there is none. */
  function LastStart(edits: seq<PointEdit>, d: Point): Point
    decreases |edits|
  {
    if edits == [] then d
    else if edits[|edits| - 1].SetStart? then edits[|edits| - 1].p
    else LastStart(edits[..|edits| - 1], d)
  }

  /** The point of the last `SetEnd` among the edits, `d` when there is none. */
  function LastEnd(edits: seq<PointEdit>, d: Point): Point
    decreases |edits|
  {
    if edits == [] then d
    else if edits[|edits| - 1].SetEnd? then edits[|edits| - 1].p
    else LastEnd(edits[..|edits| - 1], d)
  }

  /** Applying a non-empty list of edits is applying all but the last, then the last. */
  lemma {:induction false} ApplyEditsSnoc(f: Option<RouteFilter>, edits: seq<PointEdit>)
    requires edits != []
    ensures ApplyEdits(f, edits) == Some(ApplyEdit(ApplyEdits(f, edits[..|edits| - 1]), edits[|edits| - 1]))
    decreases |edits|
  {
    if |edits| > 1 {
      var rest := edits[1..];
      ApplyEditsSnoc(Some(ApplyEdit(f, edits[0])), rest);
      assert rest[..|rest| - 1] == edits[..|edits| - 1][1..];
      assert rest[|rest| - 1] == edits[|edits| - 1];
    }
  }

  /**
   * After any interleaving of `setStartPoint` and `setEndPoint`, the filter
   * exists, its start and end are the last values passed (the old point, or
   * the placeholder, where a kind of edit never occurs), and its tag lists and
   * waypoints are those it had (or the blank filter's).
   */
  lemma {:induction false} LastWriteWins(f: Option<RouteFilter>, edits: seq<PointEdit>)
    requires edits != []
    ensures var base := if f.Some? then f.value else Blank;
      var r := ApplyEdits(f, edits);
      && r.Some?
      && r.value.startPoint == LastStart(edits, base.startPoint)
      && r.value.endPoint == LastEnd(edits, base.endPoint)
      && r.value.includeTags == base.includeTags && r.value.excludeTags == base.excludeTags
      && r.value.waypoints == base.waypoints
    decreases |edits|
  {
    var init := edits[..|edits| - 1];
    ApplyEditsSnoc(f, edits);
    if init != [] {
      LastWriteWins(f, init);
    }
  }

  /** The filter after `addWaypoint` for each point, in order. */
  function AddWaypoints(f: Option<RouteFilter>, ps: seq<Point>): Option<RouteFilter>
    decreases |ps|
  {
    if ps == [] then f else AddWaypoints(Some(WithWaypointAdded(f, ps[0])), ps[1..])
  }

  /**
   * `addWaypoint` is append-only and keeps call order: after N calls the
   * waypoint list is the old one followed by the N points, and nothing else
   * in the filter has changed.
   */
  lemma {:induction false} AddWaypointsAppends(f: Option<RouteFilter>, ps: seq<Point>)
    requires ps != []
    ensures var base := if f.Some? then f.value else Blank;
      var r := AddWaypoints(f, ps);
      && r.Some? && r.value.waypoints == Some(WaypointsOf(base) + ps)
      && r.value.includeTags == base.includeTags && r.value.excludeTags == base.excludeTags
      && r.value.startPoint == base.startPoint && r.value.endPoint == base.endPoint
    decreases |ps|
  {
    var base := if f.Some? then f.value else Blank;
    var g := WithWaypointAdded(f, ps[0]);
    assert WaypointsOf(g) == WaypointsOf(base) + [ps[0]];
    if |ps| > 1 {
      AddWaypointsAppends(Some(g), ps[1..]);
      assert WaypointsOf(g) + ps[1..] == WaypointsOf(base) + ps;
    } else {
      assert ps == [ps[0]];
    }
  }

  /**
   * Removing the waypoint just added restores the old filter, or the blank
   * filter when there was none, except that an absent `waypoints` field
   * comes back as a present, empty one.
   */
  lemma RemoveUndoesAdd(f: Option<RouteFilter>, p: Point)
    ensures var base := if f.Some? then f.value else Blank;
      WithWaypointRemoved(Some(WithWaypointAdded(f, p)), |WaypointsOf(base)|)
        == Some(base.(waypoints := Some(WaypointsOf(base))))
  {
    var base := if f.Some? then f.value else Blank;
    var w := WaypointsOf(base);
    assert (w + [p])[..|w|] + (w + [p])[|w| + 1..] == w;
  }

  /** Clearing the waypoints twice is clearing them once. */
  lemma ClearIdempotent(f: Option<RouteFilter>)
    ensures WithWaypointsCleared(WithWaypointsCleared(f)) == WithWaypointsCleared(f)
  {
  }

  /**
   * The route store. `buildingWrites` records every value written to
   * `isBuildingRoute`, in order, which is what the store's subscribers see.
   */
  class RouteStore {
    var currentRoute: Option<Route>
    var routeFilter: Option<RouteFilter>
    var isBuildingRoute: bool
    ghost var buildingWrites: seq<bool>

    constructor ()
      ensures currentRoute == None && routeFilter == None && !isBuildingRoute
      ensures buildingWrites == []
    {
      currentRoute := None;
      routeFilter := None;
      isBuildingRoute := false;
      buildingWrites := [];
    }

    method SetCurrentRoute(route: Option<Route>)
      modifies this
      ensures currentRoute == route
      ensures routeFilter == old(routeFilter) && isBuildingRoute == old(isBuildingRoute)
      ensures buildingWrites == old(buildingWrites)
    {
      currentRoute := route;
    }

    method SetRouteFilter(filter: Option<RouteFilter>)
      modifies this
      ensures routeFilter == filter
      ensures currentRoute == old(currentRoute) && isBuildingRoute == old(isBuildingRoute)
      ensures buildingWrites == old(buildingWrites)
    {
      routeFilter := filter;
    }

    method SetIsBuildingRoute(isBuilding: bool)
      modifies this
      ensures isBuildingRoute == isBuilding && buildingWrites == old(buildingWrites) + [isBuilding]
      ensures currentRoute == old(currentRoute) && routeFilter == old(routeFilter)
    {
      isBuildingRoute := isBuilding;
      buildingWrites := buildingWrites + [isBuilding];
    }

    method UpdateIncludeTags(tags: seq<string>)
      modifies this
      ensures routeFilter == Some(WithIncludeTags(old(routeFilter), tags))
      ensures currentRoute == old(currentRoute) && isBuildingRoute == old(isBuildingRoute)
      ensures buildingWrites == old(buildingWrites)
    {
      routeFilter := Some(WithIncludeTags(routeFilter, tags));
    }

    method UpdateExcludeTags(tags: seq<string>)
      modifies this
      ensures routeFilter == Some(WithExcludeTags(old(routeFilter), tags))
      ensures currentRoute == old(currentRoute) && isBuildingRoute == old(isBuildingRoute)
      ensures buildingWrites == old(buildingWrites)
    {
      routeFilter := Some(WithExcludeTags(routeFilter, tags));
    }

    method SetStartPoint(p: Point)
      modifies this
      ensures routeFilter == Some(WithStartPoint(old(routeFilter), p))
      ensures currentRoute == old(currentRoute) && isBuildingRoute == old(isBuildingRoute)
      ensures buildingWrites == old(buildingWrites)
    {
      routeFilter := Some(WithStartPoint(routeFilter, p));
    }

    method SetEndPoint(p: Point)
      modifies this
      ensures routeFilter == Some(WithEndPoint(old(routeFilter), p))
      ensures currentRoute == old(currentRoute) && isBuildingRoute == old(isBuildingRoute)
      ensures buildingWrites == old(buildingWrites)
    {
      routeFilter := Some(WithEndPoint(routeFilter, p));
    }

    method AddWaypoint(p: Point)
      modifies this
      ensures routeFilter == Some(WithWaypointAdded(old(routeFilter), p))
      ensures currentRoute == old(currentRoute) && isBuildingRoute == old(isBuildingRoute)
      ensures buildingWrites == old(buildingWrites)
    {
      routeFilter := Some(WithWaypointAdded(routeFilter, p));
    }

    method RemoveWaypoint(index: int)
      modifies this
      ensures routeFilter == WithWaypointRemoved(old(routeFilter), index)
      ensures currentRoute == old(currentRoute) && isBuildingRoute == old(isBuildingRoute)
      ensures buildingWrites == old(buildingWrites)
    {
      routeFilter := WithWaypointRemoved(routeFilter, index);
    }

    method ClearWaypoints()
      modifies this
      ensures routeFilter == WithWaypointsCleared(old(routeFilter))
      ensures currentRoute == old(currentRoute) && isBuildingRoute == old(isBuildingRoute)
      ensures buildingWrites == old(buildingWrites)
    {
      routeFilter := WithWaypointsCleared(routeFilter);
    }

    /**
     * `buildRoute()`: without a filter, nothing happens. Otherwise the flag is
     * set and then cleared. The request to the route service is not issued in
     * this code, so the current route and the filter are never written.
     */
    method BuildRoute()
      modifies this
      ensures old(routeFilter).None? ==> isBuildingRoute == old(isBuildingRoute) && buildingWrites == old(buildingWrites)
      ensures old(routeFilter).Some? ==> !isBuildingRoute && buildingWrites == old(buildingWrites) + [true, false]
      ensures currentRoute == old(currentRoute) && routeFilter == old(routeFilter)
    {
      if routeFilter.None? {
        return;
      }
      SetIsBuildingRoute(true);
      SetIsBuildingRoute(false);
    }

    method ClearRoute()
      modifies this
      ensures currentRoute == None
      ensures routeFilter == old(routeFilter) && isBuildingRoute == old(isBuildingRoute)
      ensures buildingWrites == old(buildingWrites)
    {
      currentRoute := None;
    }
  }
}
