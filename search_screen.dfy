/**
 * The tag handling of the search screen (screens/Search.tsx): adding a suggested tag
 * to the search tags without duplicates, clearing suggestions when the tag input is
 * emptied, and the sort-order toggle.
 */
module SearchScreen {
  import opened Wrappers

  datatype SortOrder = Updated | Name

  /** The toggle button's handler: `order === 'updated' ? 'name' : 'updated'`. */
  function Toggled(order: SortOrder): (r: SortOrder)
    ensures r != order
  {
    if order == Updated then Name else Updated
  }

  /** Toggling twice gives the order back. */
  lemma ToggleTwice(order: SortOrder)
    ensures Toggled(Toggled(order)) == order
  {
  }

  /** The tag list `addTag(tag)` leaves: unchanged if `tag` is already there, else `[...tags, tag]`; earlier tags keep their places. */
  function WithTag(tags: seq<string>, tag: string): (r: seq<string>)
    ensures tag in r
    ensures forall t | t in r :: t in tags || t == tag
    ensures |r| >= |tags| && r[..|tags|] == tags
  {
    if tag in tags then tags else tags + [tag]
  }

  predicate NoDuplicates(tags: seq<string>)
  {
    forall i, j | 0 <= i < j < |tags| :: tags[i] != tags[j]
  }

  /** Adding a tag keeps the list free of duplicates. */
  lemma WithTagKeepsNoDuplicates(tags: seq<string>, tag: string)
    requires NoDuplicates(tags)
    ensures NoDuplicates(WithTag(tags, tag))
  {
    if tag !in tags {
      var r := tags + [tag];
      forall i, j | 0 <= i < j < |r| ensures r[i] != r[j] {
        if j == |tags| {
          assert r[i] == tags[i];
        }
      }
    }
  }

  /** The state the tag handlers touch. */
  class TagSearch {
    var tagInput: string
    var tagSuggestions: seq<string>
    var tags: seq<string>
    var order: SortOrder

    constructor ()
      ensures tagInput == "" && tagSuggestions == [] && tags == [] && order == Updated
    {
      tagInput := "";
      tagSuggestions := [];
      tags := [];
      order := Updated;
    }

    /** `addTag(tag)`: the tag joins the list unless present; the input and the suggestions are cleared. */
    method AddTag(tag: string)
      modifies this
      ensures tags == WithTag(old(tags), tag)
      ensures tag in old(tags) ==> tags == old(tags)
      ensures tag !in old(tags) ==> tags == old(tags) + [tag]
      ensures tagInput == "" && tagSuggestions == []
      ensures order == old(order)
    {
      if tag !in tags {
        tags := tags + [tag];
      }
      tagInput := "";
      tagSuggestions := [];
    }

    /**
     * The suggestion effect, run when `tagInput` changes: an empty input clears the suggestions
     * and fetches nothing; otherwise the input is what is fetched, and the suggestions are left
     * for the response to replace.
     */
    method OnTagInputChanged() returns (fetch: Option<string>)
      modifies this
      ensures |tagInput| == 0 ==> fetch == None && tagSuggestions == []
      ensures |tagInput| > 0 ==> fetch == Some(tagInput) && tagSuggestions == old(tagSuggestions)
      ensures tagInput == old(tagInput) && tags == old(tags) && order == old(order)
    {
      if |tagInput| == 0 {
        tagSuggestions := [];
        return None;
      }
      fetch := Some(tagInput);
    }

    /** The sort button: flips between `updated` and `name`. */
    method ToggleOrder()
      modifies this
      ensures order == Toggled(old(order))
      ensures tags == old(tags) && tagInput == old(tagInput) && tagSuggestions == old(tagSuggestions)
    {
      order := if order == Updated then Name else Updated;
    }
  }
}
