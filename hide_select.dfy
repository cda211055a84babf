/**
 * The local hide/select list state shared by the question table and the
 * dashboard: the new values its handlers compute for `selectedIds` and
 * `hiddenIds`, and the list of questions shown for the current view.
 */
module HideSelect {
  import opened Lists
  import opened Types

  /** `prev.includes(id) ? prev.filter(i => i !== id) : [...prev, id]`: the id is selected afterwards exactly when it was not before. */
  function Toggled(selected: seq<string>, id: string): (r: seq<string>)
    ensures id in r <==> id !in selected
  {
    if id in selected then RemoveAll(selected, id) else selected + [id]
  }

  /** `Array.from(new Set([...hidden, ...selected]))`: never holds an id twice. */
  function HideAll(hidden: seq<string>, selected: seq<string>): (r: seq<string>)
    ensures NoDup(r)
  {
    DedupIsNoDup(hidden + selected);
    Dedup(hidden + selected)
  }

  /** `hidden.filter(id => !selected.includes(id))`: no selected id stays hidden. */
  function UnhideAll(hidden: seq<string>, selected: seq<string>): (r: seq<string>)
    ensures |r| <= |hidden|
    ensures forall y :: y in r ==> y !in selected
  {
    Without(hidden, selected)
  }

  /**
   * `questions.filter(q => viewHidden ? hidden.includes(q.q_id) : !hidden.includes(q.q_id))`:
   * every question shown belongs to the view.
   */
  function Displayed(questions: seq<Question>, hidden: seq<string>, viewHidden: bool): (r: seq<Question>)
    ensures |r| <= |questions|
    ensures forall q :: q in r ==> (q.base.qId in hidden) == viewHidden
    decreases |questions|
  {
    if questions == [] then []
    else
      var rest := Displayed(questions[..|questions| - 1], hidden, viewHidden);
      var q := questions[|questions| - 1];
      if (q.base.qId in hidden) == viewHidden then rest + [q] else rest
  }

  // ------------------------------------------------------------------- toggle

  /** Toggling flips the membership of `id` and of nothing else. */
  lemma ToggledMembers(selected: seq<string>, id: string, y: string)
    ensures y in Toggled(selected, id) <==> if y == id then id !in selected else y in selected
  {
    RemoveAllMembers(selected, id, y);
  }

  /** An id already selected is removed everywhere; a new one is appended at the end. */
  lemma ToggledShape(selected: seq<string>, id: string)
    ensures id in selected ==> id !in Toggled(selected, id) && |Toggled(selected, id)| < |selected|
    ensures id !in selected ==> Toggled(selected, id) == selected + [id]
  {
    if id in selected {
      RemoveAllMembers(selected, id, id);
      RemoveAllShorter(selected, id);
    }
  }

  lemma {:induction false} RemoveAllShorter(s: seq<string>, x: string)
    requires x in s
    ensures |RemoveAll(s, x)| < |s|
    decreases |s|
  {
    var init := s[..|s| - 1];
    if s[|s| - 1] != x {
      assert s == init + [s[|s| - 1]];
      RemoveAllShorter(init, x);
    }
  }

  /** Toggling the same id twice restores every id's membership. */
  lemma ToggleTwice(selected: seq<string>, id: string, y: string)
    ensures y in Toggled(Toggled(selected, id), id) <==> y in selected
  {
    ToggledMembers(selected, id, y);
    ToggledMembers(Toggled(selected, id), id, y);
    ToggledMembers(selected, id, id);
  }

  /** On a duplicate-free selection, toggling a new id twice gives the selection back. */
  lemma ToggleTwiceNew(selected: seq<string>, id: string)
    requires id !in selected
    ensures Toggled(Toggled(selected, id), id) == selected
  {
    assert id in selected + [id];
    RemoveAbsent(selected, id);
    assert (selected + [id])[..|selected|] == selected;
  }

  /** A selection built by toggling never holds an id twice. */
  lemma ToggledNoDup(selected: seq<string>, id: string)
    requires NoDup(selected)
    ensures NoDup(Toggled(selected, id))
  {
    if id in selected {
      RemoveAllNoDup(selected, id);
    } else {
      NoDupConcat(selected, [id]);
    }
  }

  // --------------------------------------------------------------- hide / unhide

  /**
   * Hiding gives the union of hidden and selected ids, without duplicates:
   * the hidden ids first, then the newly hidden ones in selection order.
   */
  lemma HideAllShape(hidden: seq<string>, selected: seq<string>)
    ensures forall y :: y in HideAll(hidden, selected) <==> y in hidden || y in selected
    ensures NoDup(HideAll(hidden, selected))
    ensures HideAll(hidden, selected) == Dedup(hidden) + Without(Dedup(selected), hidden)
  {
    forall y ensures y in HideAll(hidden, selected) <==> y in hidden || y in selected {
      DedupMembers(hidden + selected, y);
    }
    DedupIsNoDup(hidden + selected);
    DedupConcat(hidden, selected);
  }

  /**
   * Unhiding keeps exactly the hidden ids outside the selection, each as
   * often as it was hidden and in their order.
   */
  lemma UnhideAllMembers(hidden: seq<string>, selected: seq<string>, y: string)
    ensures y in UnhideAll(hidden, selected) <==> y in hidden && y !in selected
    ensures multiset(UnhideAll(hidden, selected))[y] == if y in selected then 0 else multiset(hidden)[y]
    ensures IsSubsequence(UnhideAll(hidden, selected), hidden)
  {
    WithoutMembers(hidden, selected, y);
    WithoutCount(hidden, selected, y);
    WithoutOrdered(hidden, selected);
  }

  /**
   * Hiding and then unhiding the same selection leaves the earlier hidden ids
   * that were not selected, once each; a duplicate-free hidden list disjoint
   * from the selection comes back unchanged.
   */
  lemma HideThenUnhide(hidden: seq<string>, selected: seq<string>)
    ensures UnhideAll(HideAll(hidden, selected), selected) == Without(Dedup(hidden), selected)
    ensures NoDup(hidden) && (forall y :: y in hidden ==> y !in selected) ==>
              UnhideAll(HideAll(hidden, selected), selected) == hidden
  {
    HideAllShape(hidden, selected);
    var added := Without(Dedup(selected), hidden);
    WithoutConcat(Dedup(hidden), added, selected);
    forall y | y in added ensures y in selected {
      WithoutMembers(Dedup(selected), hidden, y);
      DedupMembers(selected, y);
    }
    WithoutAll(added, selected);
    assert Dedup(hidden) + added == HideAll(hidden, selected);
    assert Without(Dedup(hidden), selected) + [] == Without(Dedup(hidden), selected);
    if NoDup(hidden) && (forall y :: y in hidden ==> y !in selected) {
      DedupNoDup(hidden);
      WithoutDisjoint(hidden, selected);
    }
  }

  /** A duplicate-free hidden list stays duplicate-free when ids are unhidden. */
  lemma UnhideNoDup(hidden: seq<string>, selected: seq<string>)
    requires NoDup(hidden)
    ensures NoDup(UnhideAll(hidden, selected))
  {
    WithoutNoDup(hidden, selected);
  }

  // ---------------------------------------------------------------- the views

  /** The view shows exactly the questions whose q_id is (or, for the active view, is not) hidden. */
  lemma {:induction false} DisplayedMembers(questions: seq<Question>, hidden: seq<string>, viewHidden: bool, q: Question)
    ensures q in Displayed(questions, hidden, viewHidden) <==> q in questions && (q.base.qId in hidden) == viewHidden
    decreases |questions|
  {
    if questions != [] {
      DisplayedMembers(questions[..|questions| - 1], hidden, viewHidden, q);
      assert questions == questions[..|questions| - 1] + [questions[|questions| - 1]];
    }
  }

  /** The hidden and the active view split the list between them. */
  lemma {:induction false} DisplayedPartition(questions: seq<Question>, hidden: seq<string>)
    ensures |Displayed(questions, hidden, true)| + |Displayed(questions, hidden, false)| == |questions|
    decreases |questions|
  {
    if questions != [] {
      DisplayedPartition(questions[..|questions| - 1], hidden);
    }
  }

  /** Each view is a subsequence of the list: its questions appear in list order. */
  lemma {:induction false} DisplayedOrdered(questions: seq<Question>, hidden: seq<string>, viewHidden: bool)
    ensures IsSubsequence(Displayed(questions, hidden, viewHidden), questions)
    decreases |questions|
  {
    if questions != [] {
      var init := questions[..|questions| - 1];
      DisplayedOrdered(init, hidden, viewHidden);
      var d := Displayed(init, hidden, viewHidden);
      var k := |questions| - 1;
      if (questions[k].base.qId in hidden) == viewHidden {
        assert (d + [questions[k]])[..|d|] == d;
        assert init == questions[..k];
      } else {
        SubsequenceExtend(d, init, questions[k]);
        assert init + [questions[k]] == questions;
      }
    }
  }
}
