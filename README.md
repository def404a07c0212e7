# Map marks front-end: client-side stores, modelled in Dafny

The front-end lets users drop geo-tagged marks on a map, manage a catalog of
tags, and prepare route requests that prefer or avoid places with given
tags. Its logic lives in three client-side state containers (zustand
stores) and one small classification function. This project models them:

- **Route store** (`routes.dfy`, module `Routes`). It holds the route filter
  being edited (start and end points, ordered waypoints, include/exclude tag
  lists), the last built route and the "building" flag. Each filter action
  computes the new filter from the old one; the `With...` functions are those
  computations and the methods of class `RouteStore` assign their results.
  With no filter yet, the five actions that write a field (include tags,
  exclude tags, start point, end point, add waypoint) create one: points they
  do not set become the placeholder `[0, 0]` (`Unset`), tag lists are empty,
  and the `waypoints` field is absent unless the action adds a waypoint.
  `removeWaypoint` and `clearWaypoints` leave a missing filter missing.
- **Tag registry** (`tags.dfy`, module `TagRegistry`). Class `TagsStore` holds
  the catalog, the selected ids, the include/exclude mode and the search text.
  The selectors are pure functions of the catalog and the query
  (`FilteredTags`) or of the catalog and the selection (`SelectedTags`).
- **Map store** (`map.dfy`, module `MapView`). Class `MapStore` holds the
  viewport, the marks, the selected mark and the "adding a mark" state machine.
  Its invariant is `isAddingMark <==> newMarkPosition.Some?`.
- **Marker colour** (`marker.dfy`, module `MarkerColor`). `TagColor` picks one
  of five colours from a mark's tags by first-match priority.

Shared pieces: `types.dfy` (the entities: `Tag`, `TagCategory`, `Mark`,
`Route`, `RouteFilter`, `Point`), `seqs.dfy` (array `filter`, `filter` by
index and `map`-replace, with their characterisations), and `text.dfy`
(`toLowerCase` and `includes`).

Three behaviours of the code are worth stating plainly:

- Route building. `buildRoute` only checks that a filter exists, then sets
  the building flag and clears it again. It does not reject `[0,0]`
  placeholder points, does not suppress a second build, and never stores a
  route: the route-service call is commented out. `RouteStore.BuildRoute`
  states exactly this.
- Tag lists. The include/exclude tags and the selection are lists. Nothing
  removes duplicates or checks that include and exclude are disjoint.
- Toggle order. `toggleTag` flips membership (`ToggleTwiceSameMembers`), but
  an id removed and re-added moves to the end of the list
  (`ToggleTwiceReordersSelected`).

## Model

| member | source | states |
|---|---|---|
| `Seqs.Filter` | src/store/useTagsStore.ts:42-44 | `Array.prototype.filter`: an element is in the result iff it is in the input and passes the predicate; the result is no longer than the input |
| `Seqs.FilterExact` | src/store/useTagsStore.ts:42-44 | the filter result is an order-preserving subsequence of the input holding every occurrence of each passing element and none of any other |
| `Seqs.RemoveAt` | src/store/useRouteStore.ts:94 | filtering by `i !== index` removes exactly position `index` when `0 <= index < length`, and returns the list unchanged otherwise |
| `Seqs.ReplaceWhere` | src/store/useTagsStore.ts:38-40 | the `map` that swaps in the updated record keeps the length; each element satisfying the test becomes the new value, every other element stays in place |
| `Text.Lower` | src/store/useTagsStore.ts:66-67 | `toLowerCase`, restricted to the model's lowering of A-Z and U+0400-U+042F: keeps the length and maps each character independently |
| `Text.LowerIdempotent` | src/store/useTagsStore.ts:66-67 | lowering an already lowered string changes nothing |
| `Text.Contains` | src/store/useTagsStore.ts:66-67 | `includes` holds iff the needle occurs as a contiguous slice of the haystack at some position |
| `Routes.WithIncludeTags` | src/store/useRouteStore.ts:35-45 | the include list becomes the argument; with a filter, exclude list, points and waypoints are kept; without one, exclude is empty, both points are `[0,0]` and waypoints are absent |
| `Routes.WithExcludeTags` | src/store/useRouteStore.ts:46-56 | the exclude list becomes the argument; the rest is kept, or created blank as for the include list |
| `Routes.WithStartPoint` | src/store/useRouteStore.ts:57-67 | the start point becomes exactly the argument; tags, end point and waypoints are kept; on no filter, empty tags, end `[0,0]`, no waypoints field |
| `Routes.WithEndPoint` | src/store/useRouteStore.ts:68-78 | symmetric to the start point |
| `Routes.WithWaypointAdded` | src/store/useRouteStore.ts:79-90 | the waypoint list becomes the old list (absent read as empty) followed by the point; on no filter it is `[p]` with placeholder start and end; everything else is kept |
| `Routes.WithWaypointRemoved` | src/store/useRouteStore.ts:91-96 | with a waypoint list, an in-range index removes that waypoint (`w[..i] + w[i+1..]`) and an out-of-range index changes nothing; no filter or no waypoints field leaves the filter unchanged; other fields are kept |
| `Routes.WithWaypointsCleared` | src/store/useRouteStore.ts:97-102 | the waypoints become a present, empty list and the tags and points are kept; no filter stays no filter |
| `Routes.LazyCreationIsBlank` | src/store/useRouteStore.ts:35-90 | the five filters created on a missing filter all equal the action applied to the blank filter (empty tags, `[0,0]` points, no waypoints) |
| `Routes.StartEndCommute` | src/store/useRouteStore.ts:57-78 | setting start then end gives the same filter as setting end then start |
| `Routes.LastWriteWins` | src/store/useRouteStore.ts:57-78 | after any non-empty interleaving of start/end edits, start and end are the last values passed for each (old value or placeholder if none), and tags and waypoints are untouched |
| `Routes.AddWaypointsAppends` | src/store/useRouteStore.ts:79-90 | N successive `addWaypoint` calls leave the old waypoints followed by the N points in call order, with tags and points unchanged |
| `Routes.RemoveUndoesAdd` | src/store/useRouteStore.ts:79-96 | removing the waypoint just appended restores the old filter, or the blank filter when there was none, except that an absent waypoint field comes back present and empty |
| `Routes.ClearIdempotent` | src/store/useRouteStore.ts:97-102 | clearing waypoints twice equals clearing once |
| `Routes.RouteStore.constructor` | src/store/useRouteStore.ts:26-28 | initial state: no route, no filter, not building |
| `Routes.RouteStore.SetCurrentRoute` | src/store/useRouteStore.ts:31 | writes only the current route |
| `Routes.RouteStore.SetRouteFilter` | src/store/useRouteStore.ts:32 | writes only the filter |
| `Routes.RouteStore.SetIsBuildingRoute` | src/store/useRouteStore.ts:33 | writes only the flag, and the write is recorded |
| `Routes.RouteStore.UpdateIncludeTags` | src/store/useRouteStore.ts:35-45 | the filter becomes `WithIncludeTags` of the old one; route and flag unchanged |
| `Routes.RouteStore.UpdateExcludeTags` | src/store/useRouteStore.ts:46-56 | the filter becomes `WithExcludeTags` of the old one; route and flag unchanged |
| `Routes.RouteStore.SetStartPoint` | src/store/useRouteStore.ts:57-67 | the filter becomes `WithStartPoint` of the old one; route and flag unchanged |
| `Routes.RouteStore.SetEndPoint` | src/store/useRouteStore.ts:68-78 | the filter becomes `WithEndPoint` of the old one; route and flag unchanged |
| `Routes.RouteStore.AddWaypoint` | src/store/useRouteStore.ts:79-90 | the filter becomes `WithWaypointAdded` of the old one; route and flag unchanged |
| `Routes.RouteStore.RemoveWaypoint` | src/store/useRouteStore.ts:91-96 | the filter becomes `WithWaypointRemoved` of the old one; route and flag unchanged |
| `Routes.RouteStore.ClearWaypoints` | src/store/useRouteStore.ts:97-102 | the filter becomes `WithWaypointsCleared` of the old one; route and flag unchanged |
| `Routes.RouteStore.BuildRoute` | src/store/useRouteStore.ts:104-119 | with no filter nothing changes; otherwise the flag is written true then false and ends false; route and filter are never written |
| `Routes.RouteStore.ClearRoute` | src/store/useRouteStore.ts:120 | the current route becomes null; filter and flag unchanged |
| `TagRegistry.FilteredTags` | src/store/useTagsStore.ts:61-69 | an empty query returns the catalog unchanged; otherwise a tag is in the result iff it is in the catalog and its lowered name or category contains the lowered query |
| `TagRegistry.FilteredTagsInOrder` | src/store/useTagsStore.ts:65-68 | for every query, including the empty one, the filtered tags are an order-preserving subsequence of the catalog with every occurrence of each matching tag and none of the others |
| `TagRegistry.FilteredTagsNoMatch` | src/store/useTagsStore.ts:61-69 | a non-empty query that no tag matches gives the empty list |
| `TagRegistry.FilteredTagsIgnoreCase` | src/store/useTagsStore.ts:66-67 | lowering the query beforehand does not change the result |
| `TagRegistry.SelectedTags` | src/store/useTagsStore.ts:70-73 | a tag is selected iff it is in the catalog and its id is in the selection |
| `TagRegistry.SelectedTagsInCatalogOrder` | src/store/useTagsStore.ts:70-73 | the selected tags are an order-preserving subsequence of the catalog, each selected tag with all its occurrences |
| `TagRegistry.SelectionOrderIrrelevant` | src/store/useTagsStore.ts:70-73 | two selections with the same members give the same selected tags |
| `TagRegistry.SelectedTagsExample` | src/store/useTagsStore.ts:72 | selecting `b` then `a` lists `[a, b]` when the catalog is `[a, b]`: catalog order, not selection order |
| `TagRegistry.Toggled` | src/store/useTagsStore.ts:46-53 | after a toggle, `id` is selected iff it was not, every other id keeps its membership, and an unselected id is appended at the end |
| `TagRegistry.ToggledKeepsOthers` | src/store/useTagsStore.ts:50 | removing a selected id drops all its occurrences and keeps the other ids in order with their multiplicities |
| `TagRegistry.ToggleTwiceSameMembers` | src/store/useTagsStore.ts:46-53 | toggling the same id twice restores the set of selected ids |
| `TagRegistry.ToggleTwiceRestoresUnselected` | src/store/useTagsStore.ts:46-53 | toggling an unselected id twice restores the selection list exactly |
| `TagRegistry.ToggleTwiceReordersSelected` | src/store/useTagsStore.ts:46-53 | toggling a selected id twice moves it to the end: `["a","b"]` becomes `["b","a"]` |
| `TagRegistry.TagsStore.constructor` | src/store/useTagsStore.ts:27-30 | initial state: empty catalog and selection, mode include, empty query |
| `TagRegistry.TagsStore.SetAvailableTags` | src/store/useTagsStore.ts:33 | writes only the catalog |
| `TagRegistry.TagsStore.AddTag` | src/store/useTagsStore.ts:34-36 | the catalog becomes the old catalog followed by the tag; other fields unchanged |
| `TagRegistry.TagsStore.UpdateTag` | src/store/useTagsStore.ts:37-41 | same length; each entry with the updated tag's id becomes it, every other entry stays in place; other fields unchanged |
| `TagRegistry.TagsStore.RemoveTag` | src/store/useTagsStore.ts:42-44 | no tag with the id remains; the catalog is the order-preserving subsequence of all other tags; other fields unchanged |
| `TagRegistry.TagsStore.ToggleTag` | src/store/useTagsStore.ts:46-53 | the selection becomes `Toggled` of the old one; other fields unchanged |
| `TagRegistry.TagsStore.SetSelectedTags` | src/store/useTagsStore.ts:54 | writes only the selection |
| `TagRegistry.TagsStore.ClearSelectedTags` | src/store/useTagsStore.ts:55 | the selection becomes empty; other fields unchanged |
| `TagRegistry.TagsStore.SetFilterMode` | src/store/useTagsStore.ts:57 | writes only the mode |
| `TagRegistry.TagsStore.SetSearchQuery` | src/store/useTagsStore.ts:58 | writes only the query |
| `TagRegistry.TagsStore.GetFilteredTags` | src/store/useTagsStore.ts:61-69 | over the current catalog and query: an empty query returns the catalog; otherwise a tag is returned iff it is in the catalog and matches the query |
| `TagRegistry.TagsStore.GetSelectedTags` | src/store/useTagsStore.ts:70-73 | over the current catalog and selection: a tag is returned iff it is in the catalog and its id is selected |
| `MapView.MapStore.constructor` | src/store/useMapStore.ts:22-27 | initial state: centre Novosibirsk, zoom 13, nothing selected, no marks, not adding; the invariant holds |
| `MapView.MapStore.SetCenter` | src/store/useMapStore.ts:30 | writes only the centre; the invariant is preserved |
| `MapView.MapStore.SetZoom` | src/store/useMapStore.ts:31 | writes only the zoom; the invariant is preserved |
| `MapView.MapStore.SetSelectedMark` | src/store/useMapStore.ts:32 | writes only the selection; the invariant is preserved |
| `MapView.MapStore.SetMarks` | src/store/useMapStore.ts:34 | writes only the marks; the invariant is preserved |
| `MapView.MapStore.AddMark` | src/store/useMapStore.ts:35 | the marks become the old marks followed by the new one; everything else unchanged |
| `MapView.MapStore.UpdateMark` | src/store/useMapStore.ts:36-40 | same length; exactly the marks with the updated mark's id become it, in place; everything else unchanged |
| `MapView.MapStore.RemoveMark` | src/store/useMapStore.ts:41-43 | no mark with the id remains; the others stay in order with their multiplicities; the selected mark is not touched |
| `MapView.MapStore.StartAddingMark` | src/store/useMapStore.ts:45-48 | adding becomes true and the pending position becomes the argument; marks, selection, centre and zoom unchanged; the invariant holds |
| `MapView.MapStore.CancelAddingMark` | src/store/useMapStore.ts:49-52 | adding becomes false and the pending position null; the marks are untouched; the invariant holds |
| `MapView.MapStore.FinishAddingMark` | src/store/useMapStore.ts:53-57 | the mark is appended, adding becomes false and the pending position null; the invariant holds |
| `MarkerColor.TagColor` | src/components/Map/MarkMarker.tsx:71-77 | the result is always one of the five colours |
| `MarkerColor.FoodWins` | src/components/Map/MarkMarker.tsx:72 | a list with `кафе` or `ресторан` is orange whatever other tags are added before or after |
| `MarkerColor.ColorIffRule` | src/components/Map/MarkMarker.tsx:72-76 | each colour is returned iff its rule applies and no higher-priority rule does (both directions, all five colours) |
| `MarkerColor.NoTagsDefault` | src/components/Map/MarkMarker.tsx:76 | the empty tag list gives the default grey |
| `MarkerColor.MatchIsExact` | src/components/Map/MarkMarker.tsx:72-75 | tags match as whole list elements: `кафе-бар` is not a food tag |

## Left out

- React components (route builder, tag and mark lists and forms, layout) are not modelled. They do rendering and event wiring. The route builder's button guard only tests that the point arrays exist, so it does not reject `[0,0]` placeholders either.
- The REST wrappers in `src/api/` are not modelled. They only build URLs around an HTTP client that is not part of this model.
- The 2GIS map SDK glue is not modelled: map and marker construction, event subscription and the HTML of marker icons.
- Server-side route building is not modelled: path-finding, distance, duration and alternatives. This code never computes them, and `buildRoute` never stores a route.
- `Routes.RouteStore.BuildRoute`: the `async` function is modelled as a sequential method. It writes the flag true and then false; nothing runs concurrently with it.
- `Text.Lower`: lowers only the Latin capitals A-Z and the Cyrillic capitals U+0400-U+042F. The full Unicode mapping of `toLowerCase` is not modelled, including multi-character and context-dependent cases.
- `Seqs.RemoveAt`: the JavaScript `index` is a number. A fractional index matches no position and removes nothing; the model takes integer indices only.
- Dates (`createdAt`, `updatedAt`) are opaque integer timestamps. Zoom, distances and coordinates are reals that are only stored and compared, never computed on.
- The coordinate-range invariant of a mark (longitude in [-180, 180], latitude in [-90, 90]) is not enforced anywhere in these stores, so it is not part of the model.
