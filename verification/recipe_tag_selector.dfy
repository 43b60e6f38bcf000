/** The tag picker of a recipe (src/components/RecipeTagSelector.tsx): the
    ids of the tags the recipe carries, kept in step with the store as tags
    are checked and unchecked. */
module RecipeTagSelector {
  import opened Seqs

  datatype Tag = Tag(id: string, name: string, color: string)

  /** The test `tag => selectedTagIds.includes(tag.id)`. */
  function IdIn(ids: seq<string>): Tag -> bool {
    (tag: Tag) => tag.id in ids
  }

  /** `selectedTags`: the user's tags that the recipe carries. */
  function SelectedTags(allTags: seq<Tag>, selectedTagIds: seq<string>): (r: seq<Tag>)
    ensures forall tag :: tag in r <==> tag in allTags && tag.id in selectedTagIds
  {
    Filter(allTags, IdIn(selectedTagIds))
  }

  /** `selectedTags` keeps the order of the user's tags: it distributes over
      concatenation, and it is the whole list when every tag is selected. */
  lemma SelectedTagsKeepOrder(a: seq<Tag>, b: seq<Tag>, ids: seq<string>)
    ensures SelectedTags(a + b, ids) == SelectedTags(a, ids) + SelectedTags(b, ids)
    ensures (forall i :: 0 <= i < |a| ==> a[i].id in ids) ==> SelectedTags(a, ids) == a
  {
    FilterAppend(a, b, IdIn(ids));
    if forall i :: 0 <= i < |a| ==> a[i].id in ids {
      FilterKeepsAll(a, IdIn(ids));
    }
  }

  /** The ids after a toggle: appended on a successful check, removed
      everywhere on a successful uncheck, unchanged when the store fails. */
  function AfterToggle(ids: seq<string>, tagId: string, checked: bool, storeFails: bool): (r: seq<string>)
    ensures storeFails ==> r == ids
    ensures !storeFails && checked ==> |r| == |ids| + 1 && r[..|ids|] == ids && r[|ids|] == tagId
    ensures !storeFails && !checked ==> tagId !in r && forall other :: other != tagId ==> (other in r <==> other in ids)
  {
    if storeFails then ids
    else if checked then ids + [tagId]
    else RemoveAll(ids, tagId)
  }

  /** A successful uncheck removes every copy of `tagId`, wherever it
      stands, and keeps the ids around it in their order. */
  lemma UncheckRemovesEveryCopy(a: seq<string>, b: seq<string>, tagId: string)
    ensures AfterToggle(a + [tagId] + b, tagId, false, false)
      == AfterToggle(a, tagId, false, false) + AfterToggle(b, tagId, false, false)
  {
    var keep := IsNot(tagId);
    FilterAppend(a + [tagId], b, keep);
    FilterAppend(a, [tagId], keep);
    assert Filter([tagId], keep) == [];
    calc {
      RemoveAll(a + [tagId] + b, tagId);
      Filter(a + [tagId] + b, keep);
      Filter(a + [tagId], keep) + Filter(b, keep);
      Filter(a, keep) + Filter(b, keep);
      RemoveAll(a, tagId) + RemoveAll(b, tagId);
    }
  }

  /** Checking a new tag and then unchecking it, both successfully, gives
      the ids back as they were. */
  lemma CheckThenUncheck(ids: seq<string>, tagId: string)
    requires tagId !in ids
    ensures AfterToggle(AfterToggle(ids, tagId, true, false), tagId, false, false) == ids
  {
    UncheckRemovesEveryCopy(ids, [], tagId);
    assert ids + [tagId] + [] == ids + [tagId];
    FilterKeepsAll(ids, IsNot(tagId));
    assert Filter([], IsNot(tagId)) == [];
  }

  /** The picker's state. */
  class TagSelector {
    var allTags: seq<Tag>
    var selectedTagIds: seq<string>
    var loading: bool

    constructor ()
      ensures allTags == [] && selectedTagIds == [] && !loading
    {
      allTags := [];
      selectedTagIds := [];
      loading := false;
    }

    /** `handleToggleTag`, with whether the insert or delete fails. */
    method HandleToggleTag(tagId: string, checked: bool, storeFails: bool)
      modifies this
      ensures selectedTagIds == AfterToggle(old(selectedTagIds), tagId, checked, storeFails)
      ensures allTags == old(allTags)
      ensures !loading
    {
      loading := true;
      if checked {
        var error := storeFails;
        if !error {
          selectedTagIds := selectedTagIds + [tagId];
        }
      } else {
        var error := storeFails;
        if !error {
          selectedTagIds := RemoveAll(selectedTagIds, tagId);
        }
      }
      loading := false;
    }
  }
}
