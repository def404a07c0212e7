/**
 * The colour of a mark's map marker, chosen from the mark's tags by a fixed
 * priority: food places first, then parking, then connectivity, then work
 * places, then a default grey. A tag counts only when it is an element of
 * the list, spelled exactly as below.
 */
module MarkerColor {

  const FoodColor: string := "#FF6B35"
  const ParkingColor: string := "#0066CC"
  const ConnectivityColor: string := "#28a745"
  const WorkColor: string := "#6f42c1"
  const DefaultColor: string := "#6c757d"

  /** "cafe" or "restaurant" is among the tags. */
  predicate HasFood(tags: seq<string>)
  {
    "кафе" in tags || "ресторан" in tags
  }

  /** "parking" is among the tags. */
  predicate HasParking(tags: seq<string>)
  {
    "парковка" in tags
  }

  /** "wi-fi" or "internet" is among the tags. */
  predicate HasConnectivity(tags: seq<string>)
  {
    "wi-fi" in tags || "интернет" in tags
  }

  /** "work" or "office" is among the tags. */
  predicate HasWork(tags: seq<string>)
  {
    "работа" in tags || "офис" in tags
  }

  /** `getTagColor(tags)`: the first rule that applies decides. */
  function TagColor(tags: seq<string>): (r: string)
    ensures r in {FoodColor, ParkingColor, ConnectivityColor, WorkColor, DefaultColor}
  {
    if HasFood(tags) then FoodColor
    else if HasParking(tags) then ParkingColor
    else if HasConnectivity(tags) then ConnectivityColor
    else if HasWork(tags) then WorkColor
    else DefaultColor
  }

  /** A food tag decides the colour whatever else the list holds. */
  lemma FoodWins(tags: seq<string>, extra: seq<string>)
    requires HasFood(tags)
    ensures TagColor(tags + extra) == FoodColor && TagColor(extra + tags) == FoodColor
  {
  }

  /** Each colour is chosen exactly when its rule applies and no earlier rule does. */
  lemma ColorIffRule(tags: seq<string>)
    ensures TagColor(tags) == FoodColor <==> HasFood(tags)
    ensures TagColor(tags) == ParkingColor <==> !HasFood(tags) && HasParking(tags)
    ensures TagColor(tags) == ConnectivityColor <==> !HasFood(tags) && !HasParking(tags) && HasConnectivity(tags)
    ensures TagColor(tags) == WorkColor
            <==> !HasFood(tags) && !HasParking(tags) && !HasConnectivity(tags) && HasWork(tags)
    ensures TagColor(tags) == DefaultColor
            <==> !HasFood(tags) && !HasParking(tags) && !HasConnectivity(tags) && !HasWork(tags)
  {
  }

  /** No tags, no rule: the default colour. */
  lemma NoTagsDefault()
    ensures TagColor([]) == DefaultColor
  {
  }

  /** Tags are matched whole: a tag that merely contains "кафе" is not a food tag. */
  lemma MatchIsExact()
    ensures TagColor(["кафе-бар"]) == DefaultColor
    ensures TagColor(["кафе-бар", "офис"]) == WorkColor
  {
  }
}
