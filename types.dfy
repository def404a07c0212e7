/**
 * The entities shared by the three client-side stores: marks, tags, route
 * filters and built routes. Coordinates are `[lng, lat]` pairs that the
 * stores only copy and compare, so a `Point` is an opaque pair of reals.
 * Dates are kept as opaque integer timestamps.
 */
module Types {

  datatype Option<+T> = None | Some(value: T)

  /** A `[number, number]` coordinate pair, longitude first. */
  datatype Point = Point(lng: real, lat: real)

  /** The `[0, 0]` the route store writes into a point nobody has set yet. */
  const Unset: Point := Point(0.0, 0.0)

  datatype TagCategory = Food | Transport | Entertainment | Services | Infrastructure | Custom

  /** The string value of each member of the `TagCategory` enum. */
  function CategoryName(c: TagCategory): string
  {
    match c
    case Food => "food"
    case Transport => "transport"
    case Entertainment => "entertainment"
    case Services => "services"
    case Infrastructure => "infrastructure"
    case Custom => "custom"
  }

  datatype Tag = Tag(id: string, name: string, category: TagCategory, color: string, usageCount: int)

  datatype Mark = Mark(
    id: string,
    title: string,
    description: string,
    coordinates: Point,
    tags: seq<string>,
    createdAt: int,
    updatedAt: int,
    userId: string)

  datatype Route = Route(
    id: string,
    name: string,
    points: seq<Point>,
    distance: real,
    duration: real,
    tags: seq<string>,
    createdAt: int)

  /**
   * The pending route request. `waypoints` is an optional field: `None` (the
   * field is absent) and `Some([])` (present but empty) are different values.
   */
  datatype RouteFilter = RouteFilter(
    includeTags: seq<string>,
    excludeTags: seq<string>,
    startPoint: Point,
    endPoint: Point,
    waypoints: Option<seq<Point>>)

  /** The `'include' | 'exclude'` switch of the tag registry. */
  datatype FilterMode = Include | Exclude
}
