/**
 * The local state of the question table (app/questions/QuestionListTable.tsx):
 * which ids are hidden, which are selected, and whether the hidden view is
 * open. Each handler replaces some of these fields; the new values are the
 * functions of HideSelect.
 */
module QuestionListTable {
  import opened Lists
  import opened Types
  import opened HideSelect

  class Table {
    var hiddenIds: seq<string>
    var selectedIds: seq<string>
    var viewHidden: bool

    /** The selection never holds an id twice. */
    predicate Valid()
      reads this
    {
      NoDup(selectedIds)
    }

    /** The initial state: nothing hidden, nothing selected, the active view. */
    constructor ()
      ensures Valid()
      ensures hiddenIds == [] && selectedIds == [] && !viewHidden
    {
      hiddenIds := [];
      selectedIds := [];
      viewHidden := false;
    }

    /** The mount effect: the hidden ids read back from local storage replace the list; the selection is untouched. */
    method RestoreHiddenIds(saved: seq<string>)
      modifies this`hiddenIds
      ensures hiddenIds == saved
      ensures Valid() <==> old(Valid())
    {
      hiddenIds := saved;
    }

    /** `toggleSelect` */
    method ToggleSelect(id: string)
      requires Valid()
      modifies this`selectedIds
      ensures Valid()
      ensures selectedIds == Toggled(old(selectedIds), id)
      ensures id in selectedIds <==> id !in old(selectedIds)
    {
      ToggledNoDup(selectedIds, id);
      ToggledMembers(selectedIds, id, id);
      selectedIds := Toggled(selectedIds, id);
    }

    /** `handleHideSelected`: the selection joins the hidden ids and is cleared. */
    method HandleHideSelected()
      modifies this`hiddenIds, this`selectedIds
      ensures Valid()
      ensures hiddenIds == HideAll(old(hiddenIds), old(selectedIds)) && selectedIds == []
      ensures NoDup(hiddenIds)
      ensures forall y :: y in hiddenIds <==> y in old(hiddenIds) || y in old(selectedIds)
    {
      HideAllShape(hiddenIds, selectedIds);
      hiddenIds := HideAll(hiddenIds, selectedIds);
      selectedIds := [];
    }

    /** `handleUnhideSelected`: the selection leaves the hidden ids and is cleared. */
    method HandleUnhideSelected()
      modifies this`hiddenIds, this`selectedIds
      ensures Valid()
      ensures hiddenIds == UnhideAll(old(hiddenIds), old(selectedIds)) && selectedIds == []
      ensures forall y :: y in hiddenIds <==> y in old(hiddenIds) && y !in old(selectedIds)
    {
      forall y ensures y in UnhideAll(hiddenIds, selectedIds) <==> y in hiddenIds && y !in selectedIds {
        UnhideAllMembers(hiddenIds, selectedIds, y);
      }
      hiddenIds := UnhideAll(hiddenIds, selectedIds);
      selectedIds := [];
    }

    /** The view button: switch between the active and the hidden view and clear the selection. */
    method ToggleView()
      modifies this`viewHidden, this`selectedIds
      ensures Valid()
      ensures viewHidden == !old(viewHidden) && selectedIds == []
    {
      viewHidden := !viewHidden;
      selectedIds := [];
    }

    /** `displayedQuestions` for the questions the page passed in. */
    function DisplayedQuestions(questions: seq<Question>): (r: seq<Question>)
      reads this
      ensures forall q :: q in r <==> q in questions && (q.base.qId in hiddenIds) == viewHidden
      ensures IsSubsequence(r, questions)
    {
      forall q ensures q in Displayed(questions, hiddenIds, viewHidden) <==>
          q in questions && (q.base.qId in hiddenIds) == viewHidden {
        DisplayedMembers(questions, hiddenIds, viewHidden, q);
      }
      DisplayedOrdered(questions, hiddenIds, viewHidden);
      Displayed(questions, hiddenIds, viewHidden)
    }
  }
}
