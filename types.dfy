/**
 * The question records shared by the admin screens and the server actions.
 * Optional TypeScript properties are `Option`s; the three question kinds are
 * the variants of one sum type, discriminated by their type letter.
 */
module Types {
  import opened Wrappers

  /** `QuestionType`: 'T' (truth), 'B' (balance) or 'M' (mini game). */
  datatype QuestionType = Truth | Balance | MiniGame

  /** The one-letter code a question type is stored and queried under. */
  function TypeCode(t: QuestionType): (r: string)
    ensures |r| == 1
  {
    match t
    case Truth => "T"
    case Balance => "B"
    case MiniGame => "M"
  }

  /** The question type a stored type letter names, if any. */
  function ParseType(s: string): (r: Option<QuestionType>)
    ensures r.Some? <==> s in ["T", "B", "M"]
    ensures r.Some? ==> TypeCode(r.value) == s
  {
    if s == "T" then Some(Truth)
    else if s == "B" then Some(Balance)
    else if s == "M" then Some(MiniGame)
    else None
  }

  /** Type letters and question types are in one-to-one correspondence. */
  lemma TypeCodeRoundTrip(t: QuestionType)
    ensures ParseType(TypeCode(t)) == Some(t)
  {
  }

  /** Presentation-only properties of a question. */
  datatype UiProps = UiProps(
    uiTheme: Option<string>,
    iconAsset: Option<string>,
    lottieUrl: Option<string>,
    layoutType: Option<string>)

  /** The fields every question kind has (`BaseQuestion` minus `type`, which the variant carries). */
  datatype Base = Base(
    elementId: Option<string>,
    qId: string,
    content: string,
    createdAt: Option<string>,
    codeNames: Option<seq<string>>,
    updatedAt: Option<string>,
    isPublished: Option<bool>,
    ui: UiProps)

  /** `Question = TruthQuestion | BalanceQuestion | MiniGameQuestion`. */
  datatype Question =
    | TruthQuestion(base: Base, answers: Option<string>, keyword: Option<seq<string>>)
    | BalanceQuestion(base: Base, choiceA: string, choiceB: string, statsA: Option<int>, statsB: Option<int>)
    | MiniGameQuestion(base: Base, gameCode: string, difficulty: Option<int>, config: Option<string>, assetUrl: Option<string>)
  {
    /** The `type` discriminator of this question. */
    function Type(): QuestionType {
      match this
      case TruthQuestion(_, _, _) => Truth
      case BalanceQuestion(_, _, _, _, _) => Balance
      case MiniGameQuestion(_, _, _, _, _) => MiniGame
    }
  }

  /** The optional targeting axes of a filter. */
  datatype CodeFilters = CodeFilters(
    gender: Option<string>,
    relation: Option<string>,
    sub: Option<string>,
    level: Option<string>)

  /** `QuestionFilter`; `sort` is kept as the raw string a caller passed. */
  datatype QuestionFilter = QuestionFilter(
    qtype: Option<QuestionType>,
    search: Option<string>,
    limit: Option<int>,
    skip: Option<int>,
    sort: Option<string>,
    codeFilters: Option<CodeFilters>)
}
