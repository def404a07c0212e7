/**
 * The tag registry: the tag catalog, the ids the user has selected, the
 * include/exclude switch and the search text, with the two selectors that
 * derive the filtered and the selected tags from them.
 */
module TagRegistry {
  import opened Types
  import opened Seqs
  import opened Text

  /**
   * The test of `getFilteredTags`: the lowered name or the lowered category
   * of `t` contains the lowered query.
   */
  predicate Matches(t: Tag, query: string)
  {
    Contains(Lower(t.name), Lower(query)) || Contains(Lower(CategoryName(t.category)), Lower(query))
  }

  function MatchesQuery(query: string): Tag -> bool
  {
    (t: Tag) => Matches(t, query)
  }

  function IdIn(ids: seq<string>): Tag -> bool
  {
    (t: Tag) => t.id in ids
  }

  function IsNot(id: string): string -> bool
  {
    (x: string) => x != id
  }

  /**
   * `getFilteredTags()` over the catalog and the search text: an empty query
   * filters nothing; otherwise exactly the tags that match are kept.
   */
  function FilteredTags(available: seq<Tag>, query: string): (r: seq<Tag>)
    ensures query == "" ==> r == available
    ensures query != "" ==> forall t :: t in r <==> t in available && Matches(t, query)
  {
    if query == "" then available else Filter(available, MatchesQuery(query))
  }

  /**
   * The filtered tags keep the catalog's order, and every occurrence of a
   * matching tag.
   */
  lemma FilteredTagsInOrder(available: seq<Tag>, query: string)
    ensures IsSubsequence(FilteredTags(available, query), available)
    ensures forall t :: multiset(FilteredTags(available, query))[t]
                        == if Matches(t, query) then multiset(available)[t] else 0
  {
    if query == "" {
      var all := (t: Tag) => true;
      FilterExact(available, all);
      FilterKeepsAll(available, all);
      forall t: Tag ensures Matches(t, query) {
        assert OccursAt(Lower(t.name), Lower(query), 0);
      }
    } else {
      FilterExact(available, MatchesQuery(query));
    }
  }

  /** A query that matches no tag gives the empty list. */
  lemma FilteredTagsNoMatch(available: seq<Tag>, query: string)
    requires query != ""
    requires forall i :: 0 <= i < |available| ==> !Matches(available[i], query)
    ensures FilteredTags(available, query) == []
  {
    FilterKeepsNone(available, MatchesQuery(query));
  }

  /** The search ignores case: lowering the query first changes nothing. */
  lemma FilteredTagsIgnoreCase(available: seq<Tag>, query: string)
    ensures FilteredTags(available, Lower(query)) == FilteredTags(available, query)
  {
    if query != "" {
      LowerIdempotent(query);
      FilterCongruent(available, MatchesQuery(Lower(query)), MatchesQuery(query));
    }
  }

  /**
   * `getSelectedTags()`: the catalog's tags whose id is selected. The result
   * follows the catalog's order (see `SelectedTagsInCatalogOrder`).
   */
  function SelectedTags(available: seq<Tag>, selected: seq<string>): (r: seq<Tag>)
    ensures forall t :: t in r <==> t in available && t.id in selected
  {
    Filter(available, IdIn(selected))
  }

  /** The selected tags are a subsequence of the catalog, each selected tag with all its occurrences. */
  lemma SelectedTagsInCatalogOrder(available: seq<Tag>, selected: seq<string>)
    ensures IsSubsequence(SelectedTags(available, selected), available)
    ensures forall t :: multiset(SelectedTags(available, selected))[t]
                        == if t.id in selected then multiset(available)[t] else 0
  {
    FilterExact(available, IdIn(selected));
  }

  /** Only the set of selected ids matters: the order of selection does not. */
  lemma SelectionOrderIrrelevant(available: seq<Tag>, s1: seq<string>, s2: seq<string>)
    requires forall id :: id in s1 <==> id in s2
    ensures SelectedTags(available, s1) == SelectedTags(available, s2)
  {
    FilterCongruent(available, IdIn(s1), IdIn(s2));
  }

  /** Selecting `b` before `a` still lists `a` first when the catalog does. */
  lemma SelectedTagsExample(a: Tag, b: Tag)
    requires a.id != b.id
    ensures SelectedTags([a, b], [b.id, a.id]) == [a, b]
  {
    FilterKeepsAll([a, b], IdIn([b.id, a.id]));
  }

  /**
   * `toggleTag(id)` on the selection: a selected id is removed (every
   * occurrence of it), an unselected one is appended; other ids stay.
   */
  function Toggled(selected: seq<string>, id: string): (r: seq<string>)
    ensures forall x :: x in r <==> if x == id then id !in selected else x in selected
    ensures id !in selected ==> r == selected + [id]
  {
    if id in selected then Filter(selected, IsNot(id)) else selected + [id]
  }

  /** Removing a selected id keeps the other ids, in order and with their multiplicities. */
  lemma ToggledKeepsOthers(selected: seq<string>, id: string)
    requires id in selected
    ensures IsSubsequence(Toggled(selected, id), selected)
    ensures forall x :: multiset(Toggled(selected, id))[x] == if x == id then 0 else multiset(selected)[x]
  {
    FilterExact(selected, IsNot(id));
  }

  /** Toggling twice restores which ids are selected. */
  lemma ToggleTwiceSameMembers(selected: seq<string>, id: string)
    ensures forall x :: x in Toggled(Toggled(selected, id), id) <==> x in selected
  {
  }

  /** Toggling an unselected id twice restores the selection exactly, order included. */
  lemma {:induction false} ToggleTwiceRestoresUnselected(selected: seq<string>, id: string)
    requires id !in selected
    ensures Toggled(Toggled(selected, id), id) == selected
  {
    FilterAppend(selected, [id], IsNot(id));
    FilterKeepsAll(selected, IsNot(id));
    assert Filter([id], IsNot(id)) == [];
  }

  /** Toggling a selected id twice moves it to the end: the order is not restored. */
  lemma ToggleTwiceReordersSelected()
    ensures Toggled(Toggled(["a", "b"], "a"), "a") == ["b", "a"]
  {
  }

  /** The tag registry store. */
  class TagsStore {
    var availableTags: seq<Tag>
    var selectedTags: seq<string>
    var filterMode: FilterMode
    var searchQuery: string

    constructor ()
      ensures availableTags == [] && selectedTags == [] && filterMode == Include && searchQuery == ""
    {
      availableTags := [];
      selectedTags := [];
      filterMode := Include;
      searchQuery := "";
    }

    method SetAvailableTags(tags: seq<Tag>)
      modifies this
      ensures availableTags == tags
      ensures selectedTags == old(selectedTags) && filterMode == old(filterMode) && searchQuery == old(searchQuery)
    {
      availableTags := tags;
    }

    /** `addTag(tag)`: appends to the catalog. */
    method AddTag(tag: Tag)
      modifies this
      ensures availableTags == old(availableTags) + [tag]
      ensures selectedTags == old(selectedTags) && filterMode == old(filterMode) && searchQuery == old(searchQuery)
    {
      availableTags := availableTags + [tag];
    }

    /** `updateTag(u)`: every catalog entry with `u`'s id becomes `u`, in place. */
    method UpdateTag(u: Tag)
      modifies this
      ensures |availableTags| == |old(availableTags)|
      ensures forall i :: 0 <= i < |availableTags| ==>
                availableTags[i] == if old(availableTags)[i].id == u.id then u else old(availableTags)[i]
      ensures selectedTags == old(selectedTags) && filterMode == old(filterMode) && searchQuery == old(searchQuery)
    {
      availableTags := ReplaceWhere(availableTags, (t: Tag) => t.id == u.id, u);
    }

    /** `removeTag(id)`: the catalog without the tags that have this id, in order. */
    method RemoveTag(id: string)
      modifies this
      ensures forall t :: t in availableTags <==> t in old(availableTags) && t.id != id
      ensures IsSubsequence(availableTags, old(availableTags))
      ensures forall t :: multiset(availableTags)[t] == if t.id != id then multiset(old(availableTags))[t] else 0
      ensures selectedTags == old(selectedTags) && filterMode == old(filterMode) && searchQuery == old(searchQuery)
    {
      var keep := (t: Tag) => t.id != id;
      FilterExact(availableTags, keep);
      availableTags := Filter(availableTags, keep);
    }

    /** `toggleTag(id)`. */
    method ToggleTag(id: string)
      modifies this
      ensures selectedTags == Toggled(old(selectedTags), id)
      ensures availableTags == old(availableTags) && filterMode == old(filterMode) && searchQuery == old(searchQuery)
    {
      if id in selectedTags {
        selectedTags := Filter(selectedTags, IsNot(id));
      } else {
        selectedTags := selectedTags + [id];
      }
    }

    method SetSelectedTags(ids: seq<string>)
      modifies this
      ensures selectedTags == ids
      ensures availableTags == old(availableTags) && filterMode == old(filterMode) && searchQuery == old(searchQuery)
    {
      selectedTags := ids;
    }

    method ClearSelectedTags()
      modifies this
      ensures selectedTags == []
      ensures availableTags == old(availableTags) && filterMode == old(filterMode) && searchQuery == old(searchQuery)
    {
      selectedTags := [];
    }

    method SetFilterMode(mode: FilterMode)
      modifies this
      ensures filterMode == mode
      ensures availableTags == old(availableTags) && selectedTags == old(selectedTags) && searchQuery == old(searchQuery)
    {
      filterMode := mode;
    }

    method SetSearchQuery(query: string)
      modifies this
      ensures searchQuery == query
      ensures availableTags == old(availableTags) && selectedTags == old(selectedTags) && filterMode == old(filterMode)
    {
      searchQuery := query;
    }

    /** `getFilteredTags()`: the selector over the current catalog and search text. */
    function GetFilteredTags(): (r: seq<Tag>)
      reads this
      ensures searchQuery == "" ==> r == availableTags
      ensures searchQuery != "" ==> forall t :: t in r <==> t in availableTags && Matches(t, searchQuery)
    {
      FilteredTags(availableTags, searchQuery)
    }

    /** `getSelectedTags()`: the selector over the current catalog and selection. */
    function GetSelectedTags(): (r: seq<Tag>)
      reads this
      ensures forall t :: t in r <==> t in availableTags && t.id in selectedTags
    {
      SelectedTags(availableTags, selectedTags)
    }
  }
}
