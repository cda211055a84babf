/**
 * The pure and step-by-step logic of the server actions in app/actions.ts:
 * the question query `getQuestions` assembles (with the database left out,
 * the query is the list of clauses it is given), the record transforms of
 * `saveQuestion` and `mapRowToQuestion`, and how the next-ID rule (module
 * NextId) relates to the code filter's sentinel.
 */
module Actions {
  import opened Wrappers
  import opened Text
  import opened Lists
  import opened Constants
  import opened Types
  import opened Codes
  import opened NextId

  // ================================================================ getQuestions

  datatype Column = CreatedAt | UpdatedAt | QId

  /** One call on the query builder. */
  datatype Clause =
    | TypeIs(qtype: QuestionType)             // .eq('type', t)
    | Search(term: string)                    // .or(content ilike %term% , q_id ilike %term%)
    | OverlapsCodes(codes: seq<string>)       // .overlaps('code_names', codes)
    | QIdIs(id: string)                       // .eq('q_id', id)
    | OrderBy(column: Column, ascending: bool)
    | Window(from: int, to: int)              // .range(from, to), both ends inclusive

  /** The q_id no question is expected to carry; filtering on it returns nothing. */
  const Impossible: string := "IMPOSSIBLE"

  const DefaultLimit: int := 50
  const DefaultSkip: int := 0
  const DefaultSort: string := "created_desc"

  /** Some targeting axis of the code filter is set (non-empty). */
  predicate AnyCodeFilter(cf: CodeFilters) {
    Present(cf.gender) || Present(cf.relation) || Present(cf.sub) || Present(cf.level)
  }

  /** The sort keys `getQuestions` recognises, each with its column and direction. */
  function SortOrder(sort: string): (r: Clause)
    ensures r.OrderBy?
  {
    if sort == "created_asc" then OrderBy(CreatedAt, true)
    else if sort == "created_desc" then OrderBy(CreatedAt, false)
    else if sort == "updated_asc" then OrderBy(UpdatedAt, true)
    else if sort == "updated_desc" then OrderBy(UpdatedAt, false)
    else if sort == "q_id_asc" then OrderBy(QId, true)
    else OrderBy(QId, false)
  }

  /** The sort key naming a column and direction: `<column>_<asc|desc>`. */
  function SortKey(column: Column, ascending: bool): (r: string)
    ensures r in SortKeys
  {
    match (column, ascending)
    case (CreatedAt, true) => "created_asc"
    case (CreatedAt, false) => "created_desc"
    case (UpdatedAt, true) => "updated_asc"
    case (UpdatedAt, false) => "updated_desc"
    case (QId, true) => "q_id_asc"
    case (QId, false) => "q_id_desc"
  }

  const SortKeys: seq<string> := ["created_asc", "created_desc", "updated_asc", "updated_desc", "q_id_asc", "q_id_desc"]

  /** Every column and direction has a key, and the key selects that ordering. */
  lemma SortKeyRoundTrip(column: Column, ascending: bool)
    ensures SortOrder(SortKey(column, ascending)) == OrderBy(column, ascending)
  {
  }

  /** The six keys are the only ones recognised; every other string orders by q_id descending. */
  lemma SortOrderKeys(sort: string)
    ensures sort in SortKeys ==> SortKey(SortOrder(sort).column, SortOrder(sort).ascending) == sort
    ensures sort !in SortKeys ==> SortOrder(sort) == OrderBy(QId, false)
  {
  }

  /** The default sort is newest first. */
  lemma DefaultSortOrder()
    ensures SortOrder(DefaultSort) == OrderBy(CreatedAt, false)
  {
  }

  /**
   * The clauses the type, search and code filters contribute, in the order
   * they are added: at most one each, and a type filter comes first.
   */
  function FilterClauses(f: QuestionFilter): (r: seq<Clause>)
    ensures |r| <= 3
    ensures forall c :: c in r ==> !c.OrderBy? && !c.Window?
    ensures f.qtype.Some? <==> r != [] && r[0].TypeIs?
    ensures f.qtype.Some? ==> r[0] == TypeIs(f.qtype.value)
    ensures forall k :: 0 < k < |r| ==> !r[k].TypeIs?
  {
    (if f.qtype.Some? then [TypeIs(f.qtype.value)] else []) +
    (if Present(f.search) then [Search(f.search.value)] else []) +
    CodeClauses(f.codeFilters)
  }

  /** The code-filter clause: none, the overlap with the generated codes, or the sentinel. */
  function CodeClauses(cf: Option<CodeFilters>): (r: seq<Clause>)
    ensures |r| <= 1
    ensures forall c :: c in r ==> c.OverlapsCodes? || c.QIdIs?
  {
    if cf.None? || !AnyCodeFilter(cf.value) then []
    else if PossibleCodes(cf.value) != [] then [OverlapsCodes(PossibleCodes(cf.value))]
    else [QIdIs(Impossible)]
  }

  /** The whole query: the filters, then the order, then the fetched window; only the last two clauses order or page. */
  function QueryFor(f: QuestionFilter): (r: seq<Clause>)
    ensures 2 <= |r| <= 5
    ensures r[|r| - 2].OrderBy? && r[|r| - 1].Window?
    ensures forall k :: 0 <= k < |r| - 2 ==> !r[k].OrderBy? && !r[k].Window?
  {
    var limit, skip := f.limit.GetOr(DefaultLimit), f.skip.GetOr(DefaultSkip);
    FilterClauses(f) + [SortOrder(f.sort.GetOr(DefaultSort))] + [Window(skip, skip + limit - 1)]
  }

  /** `getQuestions` up to the database call: the query is assembled clause by clause. */
  method GetQuestionsQuery(filter: QuestionFilter) returns (query: seq<Clause>)
    ensures query == QueryFor(filter)
  {
    query := BuildFilterClauses(filter);
    query := query + [SortOrder(filter.sort.GetOr(DefaultSort))];
    query := query + [Window(filter.skip.GetOr(DefaultSkip), filter.skip.GetOr(DefaultSkip) + filter.limit.GetOr(DefaultLimit) - 1)];
  }

  /** The type, search and code-filter steps of `getQuestions`, in that order. */
  method BuildFilterClauses(filter: QuestionFilter) returns (query: seq<Clause>)
    ensures query == FilterClauses(filter)
  {
    query := [];
    if filter.qtype.Some? {
      query := query + [TypeIs(filter.qtype.value)];
    }
    ghost var typed := query;
    ghost var searched: seq<Clause> := if Present(filter.search) then [Search(filter.search.value)] else [];
    if Present(filter.search) {
      query := query + [Search(filter.search.value)];
    }
    assert query == typed + searched;
    var codeClauses := CodeFilterClauses(filter.codeFilters);
    query := query + codeClauses;
  }

  /** The `if (codeFilters)` step of `getQuestions`. */
  method CodeFilterClauses(codeFilters: Option<CodeFilters>) returns (clauses: seq<Clause>)
    ensures clauses == CodeClauses(codeFilters)
  {
    clauses := [];
    if codeFilters.Some? {
      var cf := codeFilters.value;
      if AnyCodeFilter(cf) {
        var possibleCodes := GeneratePossibleCodes(cf);
        if |possibleCodes| > 0 {
          clauses := [OverlapsCodes(possibleCodes)];
        } else {
          clauses := [QIdIs(Impossible)];
        }
      }
    }
  }

  /**
   * The code filter has three outcomes: no clause when no axis is set, the
   * sentinel exactly when the axes admit no code, and otherwise an overlap
   * with precisely the admitted codes.
   */
  lemma CodeClauseOutcomes(cf: Option<CodeFilters>)
    ensures CodeClauses(cf) == [] <==> cf.None? || !AnyCodeFilter(cf.value)
    ensures CodeClauses(cf) == [QIdIs(Impossible)] <==>
              cf.Some? && AnyCodeFilter(cf.value) && KeptCount(cf.value) == 0
    ensures forall codes :: CodeClauses(cf) == [OverlapsCodes(codes)] <==>
              cf.Some? && AnyCodeFilter(cf.value) && codes == PossibleCodes(cf.value) && codes != []
  {
    if cf.Some? {
      PossibleCodesEmpty(cf.value);
    }
  }

  /** The code names of a stored row pass a code clause. */
  predicate PassesCodeClauses(clauses: seq<Clause>, qId: string, codeNames: seq<string>) {
    forall k :: 0 <= k < |clauses| ==>
      match clauses[k]
      case OverlapsCodes(codes) => exists c :: c in codeNames && c in codes
      case QIdIs(id) => qId == id
      case _ => true
  }

  /**
   * What the code filter selects: with some axis set, a stored question
   * passes exactly when one of its code names is `pair-rel-sub-level` for a
   * pair, relation and level in scope and a sub the relation keeps.
   */
  lemma CodeFilterSelects(cf: Option<CodeFilters>, qId: string, codeNames: seq<string>)
    requires qId != Impossible
    ensures PassesCodeClauses(CodeClauses(cf), qId, codeNames) <==>
              cf.None? || !AnyCodeFilter(cf.value) ||
              exists c :: c in codeNames && c in PossibleCodes(cf.value)
  {
    if cf.Some? && AnyCodeFilter(cf.value) {
      var codes := PossibleCodes(cf.value);
      if codes != [] {
        assert CodeClauses(cf)[0] == OverlapsCodes(codes);
      } else {
        assert CodeClauses(cf)[0] == QIdIs(Impossible);
      }
    }
  }

  /** The query ends with the ordering and then the window `[skip, skip + limit - 1]`, defaults 50 / 0 / created_desc. */
  lemma QueryTail(f: QuestionFilter)
    ensures |QueryFor(f)| >= 2
    ensures QueryFor(f)[|QueryFor(f)| - 2] == SortOrder(f.sort.GetOr("created_desc"))
    ensures QueryFor(f)[|QueryFor(f)| - 1] ==
              Window(f.skip.GetOr(0), f.skip.GetOr(0) + f.limit.GetOr(50) - 1)
  {
  }

  /** A type filter adds exactly one type clause, and only then. */
  lemma TypeClausePresent(f: QuestionFilter, t: QuestionType)
    ensures TypeIs(t) in QueryFor(f) <==> f.qtype == Some(t)
  {
    TypeInQuery(f, t);
    TypeInFilters(f, t);
  }

  /** The order and the window are not type clauses. */
  lemma TypeInQuery(f: QuestionFilter, t: QuestionType)
    ensures TypeIs(t) in QueryFor(f) <==> TypeIs(t) in FilterClauses(f)
  {
    var q := QueryFor(f);
    var fc := FilterClauses(f);
    assert q == fc + [q[|q| - 2], q[|q| - 1]];
  }

  /** Only the first filter clause can be a type clause, and it is one exactly when the type is set. */
  lemma TypeInFilters(f: QuestionFilter, t: QuestionType)
    ensures TypeIs(t) in FilterClauses(f) <==> f.qtype == Some(t)
  {
    var fc := FilterClauses(f);
    if TypeIs(t) in fc {
      var k :| 0 <= k < |fc| && fc[k] == TypeIs(t);
      assert k == 0;
    }
  }

  /**
   * The query's last clause is the inclusive window `.range(skip, skip + limit - 1)`,
   * which spans exactly `limit` row positions starting at `skip`.
   */
  lemma WindowSize(f: QuestionFilter)
    requires f.limit.GetOr(DefaultLimit) >= 1
    ensures var w := QueryFor(f)[|QueryFor(f)| - 1];
            w.Window? && w.from == f.skip.GetOr(DefaultSkip) && w.to - w.from + 1 == f.limit.GetOr(DefaultLimit)
  {
    QueryTail(f);
  }

  /** A generated ID is never the sentinel the code filter uses. */
  lemma NextIdNotSentinel(t: QuestionType, latest: Option<string>)
    ensures NextQuestionId(t, latest) != Impossible
  {
    assert '-' !in Impossible;
  }

  // ========================================================= saveQuestion / rows

  /** The `details` JSON column; each question type fills its own keys. */
  datatype Details = Details(
    choiceA: Option<string>,
    choiceB: Option<string>,
    answers: Option<string>,
    gameCode: Option<string>,
    difficulty: Option<int>,
    config: Option<string>)

  const NoDetails: Details := Details(None, None, None, None, None, None)

  /** The row `saveQuestion` upserts (keyed by q_id); `updatedAt` is the clock reading passed in. */
  datatype Payload = Payload(
    qId: string,
    qtype: QuestionType,
    content: string,
    codeNames: seq<string>,
    details: Details,
    updatedAt: string)

  /** The type-specific details a question is saved with (`saveQuestion`'s `details`). */
  function DetailsOf(q: Question): Details
  {
    match q
    case BalanceQuestion(_, a, b, _, _) => NoDetails.(choiceA := Some(a), choiceB := Some(b))
    case TruthQuestion(_, answers, _) => NoDetails.(answers := answers)
    case MiniGameQuestion(_, game, _, config, _) => NoDetails.(gameCode := Some(game), config := config)
  }

  /**
   * `(code_names || []).filter(Boolean)`: the non-empty names, each as often
   * as it occurs and in their order.
   */
  function CleanCodeNames(codeNames: Option<seq<string>>): (r: seq<string>)
    ensures "" !in r
    ensures forall c :: c in r <==> c in codeNames.GetOr([]) && c != ""
    ensures IsSubsequence(r, codeNames.GetOr([]))
    ensures multiset(r) == multiset(codeNames.GetOr([]))["" := 0]
  {
    var names := codeNames.GetOr([]);
    assert forall c :: c in RemoveAll(names, "") <==> c in names && c != "" by {
      forall c ensures c in RemoveAll(names, "") <==> c in names && c != "" {
        RemoveAllMembers(names, "", c);
      }
    }
    RemoveAllOrdered(names, "");
    RemoveAllCount(names, "");
    RemoveAll(names, "")
  }

  /** Cleaning twice is cleaning once, and a list without empty names is kept as it is. */
  lemma CleanCodeNamesIdempotent(codeNames: seq<string>)
    ensures CleanCodeNames(Some(CleanCodeNames(Some(codeNames)))) == CleanCodeNames(Some(codeNames))
    ensures "" !in codeNames ==> CleanCodeNames(Some(codeNames)) == codeNames
  {
    RemoveAbsent(CleanCodeNames(Some(codeNames)), "");
    if "" !in codeNames {
      RemoveAbsent(codeNames, "");
    }
  }

  /**
   * `saveQuestion`'s payload, keyed by the question's q_id: its type and
   * content, its non-empty code names in order, the type's own details
   * without a difficulty, and the clock reading; every other property is
   * dropped.
   */
  function SavePayload(q: Question, now: string): (p: Payload)
    ensures p.qId == q.base.qId && p.qtype == q.Type() && p.content == q.base.content
    ensures "" !in p.codeNames && IsSubsequence(p.codeNames, q.base.codeNames.GetOr([]))
    ensures forall c :: c in q.base.codeNames.GetOr([]) && c != "" ==> c in p.codeNames
    ensures p.details.difficulty.None?
    ensures p.details.choiceA.Some? <==> p.qtype == Balance
    ensures p.details.gameCode.Some? <==> p.qtype == MiniGame
    ensures p.updatedAt == now
  {
    Payload(q.base.qId, q.Type(), q.base.content, CleanCodeNames(q.base.codeNames), DetailsOf(q), now)
  }

  /** A row of the `questions` table as read back; `qtype` is the raw stored letter. */
  datatype Row = Row(
    id: Option<string>,
    qId: string,
    qtype: string,
    content: string,
    codeNames: Option<seq<string>>,
    createdAt: Option<string>,
    details: Option<Details>)

  /** What `mapRowToQuestion` returns: a question, or for an unknown type letter just the base fields. */
  datatype Loaded = Known(question: Question) | Untyped(base: Base, qtype: string)

  function NoUi(): UiProps {
    UiProps(None, None, None, None)
  }

  /** `details.difficulty || 1`: never zero; a stored non-zero difficulty is kept, and a missing or zero one becomes 1. */
  function DifficultyOr1(d: Option<int>): (r: int)
    ensures r != 0
    ensures d.Some? && d.value != 0 ==> r == d.value
    ensures d.None? || d.value == 0 ==> r == 1
  {
    if d.Some? && d.value != 0 then d.value else 1
  }

  /** The base fields of a loaded row, whether or not its type is known. */
  function LoadedBase(r: Loaded): Base {
    if r.Known? then r.question.base else r.base
  }

  /**
   * `mapRowToQuestion`: the base fields copied from the row (missing code
   * names become the empty list, the optional base and UI properties stay
   * unset), then for a known type letter the type's details with their
   * defaults; an unknown letter keeps only the base and the letter.
   */
  function MapRowToQuestion(row: Row): (r: Loaded)
    ensures r.Known? <==> row.qtype in ["B", "T", "M"]
    ensures r.Known? ==> TypeCode(r.question.Type()) == row.qtype
    ensures r.Untyped? ==> r.qtype == row.qtype
    ensures LoadedBase(r).elementId == row.id && LoadedBase(r).qId == row.qId
    ensures LoadedBase(r).content == row.content && LoadedBase(r).createdAt == row.createdAt
    ensures row.codeNames.Some? ==> LoadedBase(r).codeNames == row.codeNames
    ensures row.codeNames.None? ==> LoadedBase(r).codeNames == Some([])
    ensures LoadedBase(r).updatedAt.None? && LoadedBase(r).isPublished.None? && LoadedBase(r).ui == NoUi()
  {
    var base := Base(row.id, row.qId, row.content, row.createdAt, Some(row.codeNames.GetOr([])), None, None, NoUi());
    var d := row.details.GetOr(NoDetails);
    if row.qtype == "B" then Known(BalanceQuestion(base, OrElse(d.choiceA, ""), OrElse(d.choiceB, ""), None, None))
    else if row.qtype == "T" then Known(TruthQuestion(base, Some(OrElse(d.answers, "")), None))
    else if row.qtype == "M" then
      Known(MiniGameQuestion(base, OrElse(d.gameCode, ""), Some(DifficultyOr1(d.difficulty)), Some(OrElse(d.config, "{}")), None))
    else Untyped(base, row.qtype)
  }

  /** A balance row's choices are the stored ones, each "" when missing or empty. */
  lemma MapRowBalance(row: Row)
    requires row.qtype == "B"
    ensures var q, d := MapRowToQuestion(row).question, row.details.GetOr(NoDetails);
      q.BalanceQuestion? &&
      (Present(d.choiceA) ==> q.choiceA == d.choiceA.value) && (!Present(d.choiceA) ==> q.choiceA == "") &&
      (Present(d.choiceB) ==> q.choiceB == d.choiceB.value) && (!Present(d.choiceB) ==> q.choiceB == "") &&
      q.statsA.None? && q.statsB.None?
  {
  }

  /** A truth row always has answers: the stored ones, or "" when missing or empty. */
  lemma MapRowTruth(row: Row)
    requires row.qtype == "T"
    ensures var q, d := MapRowToQuestion(row).question, row.details.GetOr(NoDetails);
      q.TruthQuestion? && q.answers.Some? &&
      (Present(d.answers) ==> q.answers.value == d.answers.value) && (!Present(d.answers) ==> q.answers.value == "") &&
      q.keyword.None?
  {
  }

  /**
   * A mini-game row's game code is the stored one or "", its difficulty
   * the stored non-zero one or 1, and its config the stored one or "{}";
   * a row without details gets all three defaults.
   */
  lemma MapRowMiniGame(row: Row)
    requires row.qtype == "M"
    ensures var q, d := MapRowToQuestion(row).question, row.details.GetOr(NoDetails);
      q.MiniGameQuestion? && q.difficulty.Some? && q.difficulty.value != 0 && q.config.Some? &&
      (Present(d.gameCode) ==> q.gameCode == d.gameCode.value) && (!Present(d.gameCode) ==> q.gameCode == "") &&
      (d.difficulty.Some? && d.difficulty.value != 0 ==> q.difficulty.value == d.difficulty.value) &&
      (Present(d.config) ==> q.config.value == d.config.value) && (!Present(d.config) ==> q.config.value == "{}") &&
      q.assetUrl.None?
    ensures row.details.None? ==> MapRowToQuestion(row).question == MiniGameQuestion(LoadedBase(MapRowToQuestion(row)), "", Some(1), Some("{}"), None)
  {
  }

  /** The row the store holds after an upsert of `p`; the store assigns `id` and `createdAt`. */
  function StoredRow(p: Payload, id: Option<string>, createdAt: Option<string>): Row {
    Row(id, p.qId, TypeCode(p.qtype), p.content, Some(p.codeNames), createdAt, Some(p.details))
  }

  /** The question a save and a load give back: what survives a round trip through the table. */
  function Reloaded(q: Question, id: Option<string>, createdAt: Option<string>): Question {
    var base := Base(id, q.base.qId, q.base.content, createdAt, Some(CleanCodeNames(q.base.codeNames)), None, None, NoUi());
    match q
    case BalanceQuestion(_, a, b, _, _) => BalanceQuestion(base, a, b, None, None)
    case TruthQuestion(_, answers, _) => TruthQuestion(base, Some(OrElse(answers, "")), None)
    case MiniGameQuestion(_, game, _, config, _) => MiniGameQuestion(base, game, Some(1), Some(OrElse(config, "{}")), None)
  }

  /**
   * Saving a question and loading its row keeps its type, q_id, content,
   * non-empty code names and text details; answers and config get their
   * defaults, difficulty (never saved) comes back as 1, and the optional
   * base and UI properties are dropped.
   */
  lemma SaveLoadRoundTrip(q: Question, now: string, id: Option<string>, createdAt: Option<string>)
    ensures MapRowToQuestion(StoredRow(SavePayload(q, now), id, createdAt)) == Known(Reloaded(q, id, createdAt))
  {
    TypeCodeRoundTrip(q.Type());
  }

  /** A question that has been through the table once survives the next round trip unchanged. */
  lemma RoundTripIdempotent(q: Question, now: string, id: Option<string>, createdAt: Option<string>)
    ensures Reloaded(Reloaded(q, id, createdAt), id, createdAt) == Reloaded(q, id, createdAt)
    ensures Reloaded(q, id, createdAt).Type() == q.Type()
  {
    CleanCodeNamesIdempotent(q.base.codeNames.GetOr([]));
  }
}
