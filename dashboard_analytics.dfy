/**
 * The dashboard's drill-down panel (app/components/DashboardAnalytics.tsx):
 * a bar click picks a sub-relation and optionally a level, the panel fetches
 * the questions targeted at it, and the same hide/select state as the
 * question table works on the fetched list.
 */
module DashboardAnalytics {
  import opened Wrappers
  import opened Lists
  import opened Constants
  import opened Types
  import opened Codes
  import opened Actions
  import opened HideSelect

  /** The most questions the panel asks for. */
  const FetchLimit: int := 50

  /**
   * The filter `fetchQuestions` sends for the chosen sub and level, or None
   * while no sub is chosen (the effect does not fetch then).
   */
  function FetchFilter(selectedSub: Option<string>, selectedLevel: Option<string>): (r: Option<QuestionFilter>)
    ensures r.Some? <==> Present(selectedSub)
    ensures r.Some? ==> r.value.limit == Some(FetchLimit) && r.value.codeFilters.Some?
    ensures r.Some? ==>
              r.value.codeFilters.value == CodeFilters(None, None, selectedSub, if Present(selectedLevel) then selectedLevel else None)
    ensures r.Some? ==> r.value.qtype.None? && r.value.search.None? && r.value.skip.None? && r.value.sort.None?
  {
    if !Present(selectedSub) then None
    else
      var cf := CodeFilters(None, None, selectedSub, if Present(selectedLevel) then selectedLevel else None);
      Some(QuestionFilter(None, None, Some(FetchLimit), None, None, Some(cf)))
  }

  /** The code filter a bar click sends: the sub, and the level when one is chosen. */
  function PanelCodes(sub: string, level: Option<string>): CodeFilters {
    CodeFilters(None, None, Some(sub), if Present(level) then level else None)
  }

  /**
   * What the panel asks for, by code: for a sub no relation owns, the
   * impossible q_id; otherwise every gender pair's code under the owner at the
   * chosen level, or at all five levels.
   */
  lemma FetchCodes(sub: string, level: Option<string>)
    requires sub != ""
    ensures OwnerOf(sub).None? <==> CodeClauses(Some(PanelCodes(sub, level))) == [QIdIs(Impossible)]
    ensures OwnerOf(sub).Some? ==>
              |PossibleCodes(PanelCodes(sub, level))| == 4 * |LevelAxis(PanelCodes(sub, level))|
    ensures forall c :: c in PossibleCodes(PanelCodes(sub, level)) <==>
              exists p, l :: p in PairValues() && l in LevelAxis(PanelCodes(sub, level)) && OwnerOf(sub).Some? &&
                c == Code(p, OwnerOf(sub).value, sub, l)
  {
    FetchSentinel(sub, level);
    FetchCount(sub, level);
    FetchMembers(sub, level);
  }

  /** A bar for a sub no relation owns fetches with the impossible q_id. */
  lemma FetchSentinel(sub: string, level: Option<string>)
    requires sub != ""
    ensures OwnerOf(sub).None? <==> CodeClauses(Some(PanelCodes(sub, level))) == [QIdIs(Impossible)]
  {
    var cf := PanelCodes(sub, level);
    SubOnlyCount(cf);
    CodeClauseOutcomes(Some(cf));
  }

  /** A bar for an owned sub asks for one code per gender pair and level. */
  lemma FetchCount(sub: string, level: Option<string>)
    requires sub != ""
    ensures OwnerOf(sub).Some? ==>
              |PossibleCodes(PanelCodes(sub, level))| == 4 * |LevelAxis(PanelCodes(sub, level))|
  {
    var cf := PanelCodes(sub, level);
    SubWithoutRelation(cf);
    assert |PairAxis(cf)| == 4 by {
      PairAxisShape(cf);
    }
  }

  /** The codes a bar asks for: every gender pair under the sub's owner, at the levels in scope. */
  lemma FetchMembers(sub: string, level: Option<string>)
    requires sub != ""
    ensures forall c :: c in PossibleCodes(PanelCodes(sub, level)) <==>
              exists p, l :: p in PairValues() && l in LevelAxis(PanelCodes(sub, level)) && OwnerOf(sub).Some? &&
                c == Code(p, OwnerOf(sub).value, sub, l)
  {
    var cf := PanelCodes(sub, level);
    assert PairAxis(cf) == PairValues();
    SubWithoutRelation(cf);
  }

  /** The panel's query ends with newest-first order and the window 0..49. */
  lemma FetchWindow(sub: string, level: Option<string>)
    requires sub != ""
    ensures FetchFilter(Some(sub), level) == Some(QuestionFilter(None, None, Some(FetchLimit), None, None, Some(PanelCodes(sub, level))))
    ensures var q := QueryFor(FetchFilter(Some(sub), level).value);
            |q| >= 2 && q[|q| - 2] == OrderBy(CreatedAt, false) && q[|q| - 1] == Window(0, 49)
  {
    var f := FetchFilter(Some(sub), level).value;
    QueryTail(f);
    DefaultSortOrder();
  }

  class Panel {
    var selectedSub: Option<string>
    var selectedLevel: Option<string>
    var questions: seq<Question>
    var hiddenIds: seq<string>
    var selectedIds: seq<string>
    var viewHidden: bool

    /** The selection never holds an id twice. */
    predicate Valid()
      reads this
    {
      NoDup(selectedIds)
    }

    /** The initial state: no sub or level chosen, nothing fetched, hidden or selected. */
    constructor ()
      ensures Valid()
      ensures selectedSub.None? && selectedLevel.None? && questions == []
      ensures hiddenIds == [] && selectedIds == [] && !viewHidden
    {
      selectedSub := None;
      selectedLevel := None;
      questions := [];
      hiddenIds := [];
      selectedIds := [];
      viewHidden := false;
    }

    /** The mount effect: the hidden ids read back from local storage replace the list; the selection is untouched. */
    method RestoreHiddenIds(saved: seq<string>)
      modifies this`hiddenIds
      ensures hiddenIds == saved
      ensures Valid() <==> old(Valid())
    {
      hiddenIds := saved;
    }

    /** The filter the fetch effect sends for the current choice, if it fetches at all. */
    function CurrentFetch(): (r: Option<QuestionFilter>)
      reads this
      ensures r.Some? <==> Present(selectedSub)
    {
      FetchFilter(selectedSub, selectedLevel)
    }

    /** The questions a fetch returned replace the list. */
    method ReceiveQuestions(result: seq<Question>)
      modifies this`questions
      ensures questions == result
    {
      questions := result;
    }

    /** `handleBarClick`: choose the sub and the level (an empty or missing level means all) and clear the selection. */
    method HandleBarClick(sub: string, level: Option<string>)
      modifies this`selectedSub, this`selectedLevel, this`selectedIds
      ensures Valid()
      ensures selectedSub == Some(sub) && selectedIds == []
      ensures selectedLevel == if Present(level) then level else None
    {
      selectedSub := Some(sub);
      selectedLevel := if Present(level) then level else None;
      selectedIds := [];
    }

    /** A level tab: `null` for all levels, or one of L1..L5; the selection is kept. */
    method SelectLevel(level: Option<string>)
      modifies this`selectedLevel
      ensures selectedLevel == level
    {
      selectedLevel := level;
    }

    /** The close button: no sub is chosen any more, so nothing is fetched. */
    method Close()
      modifies this`selectedSub
      ensures selectedSub.None? && CurrentFetch().None?
    {
      selectedSub := None;
    }

    /** `toggleSelect` */
    method ToggleSelect(id: string)
      requires Valid()
      modifies this`selectedIds
      ensures Valid()
      ensures selectedIds == Toggled(old(selectedIds), id)
      ensures id in selectedIds <==> id !in old(selectedIds)
    {
      ToggledNoDup(selectedIds, id);
      ToggledMembers(selectedIds, id, id);
      selectedIds := Toggled(selectedIds, id);
    }

    /** `handleHideSelected` */
    method HandleHideSelected()
      modifies this`hiddenIds, this`selectedIds
      ensures Valid()
      ensures hiddenIds == HideAll(old(hiddenIds), old(selectedIds)) && selectedIds == []
      ensures NoDup(hiddenIds)
      ensures forall y :: y in hiddenIds <==> y in old(hiddenIds) || y in old(selectedIds)
    {
      HideAllShape(hiddenIds, selectedIds);
      hiddenIds := HideAll(hiddenIds, selectedIds);
      selectedIds := [];
    }

    /** `handleUnhideSelected` */
    method HandleUnhideSelected()
      modifies this`hiddenIds, this`selectedIds
      ensures Valid()
      ensures hiddenIds == UnhideAll(old(hiddenIds), old(selectedIds)) && selectedIds == []
      ensures forall y :: y in hiddenIds <==> y in old(hiddenIds) && y !in old(selectedIds)
    {
      forall y ensures y in UnhideAll(hiddenIds, selectedIds) <==> y in hiddenIds && y !in selectedIds {
        UnhideAllMembers(hiddenIds, selectedIds, y);
      }
      hiddenIds := UnhideAll(hiddenIds, selectedIds);
      selectedIds := [];
    }

    /** The view button: switch views and clear the selection. */
    method ToggleView()
      modifies this`viewHidden, this`selectedIds
      ensures Valid()
      ensures viewHidden == !old(viewHidden) && selectedIds == []
    {
      viewHidden := !viewHidden;
      selectedIds := [];
    }

    /** `displayedQuestions` over the fetched list. */
    function DisplayedQuestions(): (r: seq<Question>)
      reads this
      ensures forall q :: q in r <==> q in questions && (q.base.qId in hiddenIds) == viewHidden
      ensures IsSubsequence(r, questions)
    {
      forall q ensures q in Displayed(questions, hiddenIds, viewHidden) <==>
          q in questions && (q.base.qId in hiddenIds) == viewHidden {
        DisplayedMembers(questions, hiddenIds, viewHidden, q);
      }
      DisplayedOrdered(questions, hiddenIds, viewHidden);
      Displayed(questions, hiddenIds, viewHidden)
    }
  }
}
