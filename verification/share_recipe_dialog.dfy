/** The share dialog of a recipe (src/components/ShareRecipeDialog.tsx):
    the friends the user selects, and the inserts and deletes that make the
    stored shares match the selection. */
module ShareRecipeDialog {
  import opened Wrappers
  import opened Seqs

  /** `toAdd`: the selected ids not shared yet, in selection order. */
  function ToAdd(selected: seq<string>, current: seq<string>): (r: seq<string>)
    ensures forall id :: id in r <==> id in selected && id !in current
  {
    Without(selected, current)
  }

  /** `toRemove`: the shared ids no longer selected. */
  function ToRemove(current: seq<string>, selected: seq<string>): (r: seq<string>)
    ensures forall id :: id in r <==> id in current && id !in selected
  {
    Without(current, selected)
  }

  /** Nothing is both added and removed. */
  lemma AddRemoveDisjoint(selected: seq<string>, current: seq<string>)
    ensures forall id :: !(id in ToAdd(selected, current) && id in ToRemove(current, selected))
  {
  }

  /** `toAdd` keeps the order of the selection: it is the selection with
      the shared ids taken out, and a selection made only of new ids is
      added as it is. */
  lemma ToAddKeepsOrder(a: seq<string>, b: seq<string>, current: seq<string>)
    ensures ToAdd(a + b, current) == ToAdd(a, current) + ToAdd(b, current)
    ensures (forall i :: 0 <= i < |a| ==> a[i] !in current) ==> ToAdd(a, current) == a
  {
    FilterAppend(a, b, NotIn(current));
    if forall i :: 0 <= i < |a| ==> a[i] !in current {
      FilterKeepsAll(a, NotIn(current));
    }
  }

  /** A request `handleShare` sends to the `shared_recipes` table. */
  datatype StoreCall = InsertShares(ids: seq<string>) | DeleteShares(ids: seq<string>)

  /** The requests `handleShare` sends, in order: the insert only when
      there is something to add, the delete only when there is something to
      remove, and no delete once the insert has failed. */
  function ShareCalls(selected: seq<string>, current: seq<string>, insertFails: bool): seq<StoreCall> {
    var toAdd := ToAdd(selected, current);
    var toRemove := ToRemove(current, selected);
    (if toAdd != [] then [InsertShares(toAdd)] else [])
    + (if toAdd != [] && insertFails then [] else if toRemove != [] then [DeleteShares(toRemove)] else [])
  }

  /** Whether the whole share went through. */
  predicate ShareSucceeds(selected: seq<string>, current: seq<string>, insertFails: bool, deleteFails: bool) {
    && !(ToAdd(selected, current) != [] && insertFails)
    && !(ToRemove(current, selected) != [] && deleteFails)
  }

  /** The ids a list holds. */
  function Ids(ids: seq<string>): set<string> {
    set id | id in ids
  }

  /** The ids shared after a request has been applied. */
  function Apply(shares: set<string>, call: StoreCall): set<string> {
    match call
    case InsertShares(ids) => shares + Ids(ids)
    case DeleteShares(ids) => shares - Ids(ids)
  }

  function ApplyAll(shares: set<string>, calls: seq<StoreCall>): set<string>
    decreases |calls|
  {
    if calls == [] then shares else ApplyAll(Apply(shares, calls[0]), calls[1..])
  }

  /** No request is ever sent with an empty list of ids. */
  lemma NoEmptyRequest(selected: seq<string>, current: seq<string>, insertFails: bool)
    ensures forall c :: c in ShareCalls(selected, current, insertFails) ==> c.ids != []
    ensures |ShareCalls(selected, current, insertFails)| <= 2
  {
  }

  /** Once both requests have gone through, the stored shares are exactly
      the selection. */
  lemma ShareReachesSelection(selected: seq<string>, current: seq<string>)
    ensures ApplyAll(Ids(current), ShareCalls(selected, current, false)) == Ids(selected)
  {
    var toAdd := ToAdd(selected, current);
    var toRemove := ToRemove(current, selected);
    var s0 := Ids(current);
    var s1 := if toAdd != [] then Apply(s0, InsertShares(toAdd)) else s0;
    var s2 := if toRemove != [] then Apply(s1, DeleteShares(toRemove)) else s1;
    var calls := ShareCalls(selected, current, false);
    if toAdd != [] && toRemove != [] {
      assert calls == [InsertShares(toAdd), DeleteShares(toRemove)];
      assert calls[1..] == [DeleteShares(toRemove)];
      assert ApplyAll(s1, calls[1..]) == ApplyAll(s2, []);
    } else if toAdd != [] {
      assert calls == [InsertShares(toAdd)];
      assert ApplyAll(s1, calls[1..]) == ApplyAll(s1, []);
    } else if toRemove != [] {
      assert calls == [DeleteShares(toRemove)];
      assert ApplyAll(s2, calls[1..]) == s2;
    } else {
      assert calls == [];
    }
    assert forall x :: x in s2 <==> x in selected;
  }

  /** `toggleFriend`'s new selection: the id removed everywhere if present,
      appended if absent. */
  function Toggled(selected: seq<string>, id: string): (r: seq<string>)
    ensures id in r <==> id !in selected
    ensures forall other :: other != id ==> (other in r <==> other in selected)
  {
    if id in selected then RemoveAll(selected, id) else selected + [id]
  }

  /** Toggling keeps a selection free of duplicates. */
  lemma ToggledNoDuplicates(selected: seq<string>, id: string)
    requires NoDuplicates(selected)
    ensures NoDuplicates(Toggled(selected, id))
  {
    if id in selected {
      FilterNoDuplicates(selected, IsNot(id));
    } else {
      var r := selected + [id];
      forall i, j | 0 <= i < j < |r| ensures r[i] != r[j] {
        if j == |selected| {
          assert r[i] == selected[i];
        }
      }
    }
  }

  /** Toggling twice gives back the same friends; an id that was not
      selected leaves the selection exactly as it was. */
  lemma ToggleTwice(selected: seq<string>, id: string)
    ensures forall x :: x in Toggled(Toggled(selected, id), id) <==> x in selected
    ensures id !in selected ==> Toggled(Toggled(selected, id), id) == selected
  {
    if id !in selected {
      var once := selected + [id];
      assert id in once;
      FilterKeepsAll(selected, IsNot(id));
      FilterAppend(selected, [id], IsNot(id));
      assert Filter([id], IsNot(id)) == [];
      assert Toggled(once, id) == Filter(once, IsNot(id));
    }
  }

  /** The dialog's state. */
  class ShareDialog {
    var selectedFriends: seq<string>
    var loading: bool
    var open: bool

    constructor ()
      ensures selectedFriends == [] && !loading && !open
    {
      selectedFriends := [];
      loading := false;
      open := false;
    }

    /** `toggleFriend`. */
    method ToggleFriend(friendId: string)
      modifies this
      ensures selectedFriends == Toggled(old(selectedFriends), friendId)
      ensures loading == old(loading) && open == old(open)
    {
      if friendId in selectedFriends {
        selectedFriends := RemoveAll(selectedFriends, friendId);
      } else {
        selectedFriends := selectedFriends + [friendId];
      }
    }

    /** `handleShare`, with the current shares as read from the store (null
        when the read gave nothing) and whether each write fails. */
    method HandleShare(currentShares: Option<seq<string>>, insertFails: bool, deleteFails: bool)
      returns (calls: seq<StoreCall>, shared: bool)
      modifies this
      ensures calls == ShareCalls(old(selectedFriends), currentShares.GetOr([]), insertFails)
      ensures shared == ShareSucceeds(old(selectedFriends), currentShares.GetOr([]), insertFails, deleteFails)
      ensures selectedFriends == old(selectedFriends)
      ensures !loading
      ensures open == (old(open) && !shared)
    {
      loading := true;
      var currentShareIds := currentShares.GetOr([]);
      var toAdd := ToAdd(selectedFriends, currentShareIds);
      var toRemove := ToRemove(currentShareIds, selectedFriends);
      calls := [];
      shared := true;
      if toAdd != [] {
        calls := calls + [InsertShares(toAdd)];
        if insertFails {
          shared := false;
        }
      }
      if shared && toRemove != [] {
        calls := calls + [DeleteShares(toRemove)];
        if deleteFails {
          shared := false;
        }
      }
      if shared {
        open := false;
      }
      loading := false;
    }
  }
}
