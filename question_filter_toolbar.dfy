/**
 * The question list's filter toolbar (app/questions/QuestionFilterToolbar.tsx).
 * Its seven fields start from the URL's query parameters; Apply writes them
 * back into the parameters, Clear resets them, and the relation selector
 * resets the sub-relation. Query parameters are a map from name to value.
 */
module QuestionFilterToolbar {
  import opened Wrappers
  import opened Lists
  import opened Constants

  type Params = map<string, string>

  const DefaultSort: string := "created_desc"

  /** `searchParams.get(name) || fallback`: a missing or empty parameter gives the fallback. */
  function ParamOr(params: Params, name: string, fallback: string): (r: string)
    ensures name in params && params[name] != "" ==> r == params[name]
    ensures !(name in params && params[name] != "") ==> r == fallback
  {
    if name in params && params[name] != "" then params[name] else fallback
  }

  /** `createQueryString`: set `name` to a non-empty value, or delete it. */
  function CreateQueryString(params: Params, name: string, value: string): (r: Params)
    ensures value != "" ==> name in r && r[name] == value
    ensures value == "" ==> name !in r
    ensures forall k :: k != name ==> (k in r <==> k in params) && (k in params ==> r[k] == params[k])
  {
    if value != "" then params[name := value] else params - {name}
  }

  /** Setting and reading back a parameter gives the value, or the fallback for an empty one. */
  lemma CreateThenRead(params: Params, name: string, value: string, fallback: string)
    ensures ParamOr(CreateQueryString(params, name, value), name, fallback) == if value != "" then value else fallback
  {
  }

  /**
   * `out` is `params` after `fields` (name to value) were written in: each
   * named parameter is set to its non-empty value or absent, and every other
   * parameter is as in `params`.
   */
  ghost predicate Written(out: Params, params: Params, fields: map<string, string>) {
    (forall k :: k in fields ==>
       (fields[k] != "" ==> k in out && out[k] == fields[k]) && (fields[k] == "" ==> k !in out)) &&
    (forall k :: k !in fields ==> (k in out <==> k in params) && (k in params ==> out[k] == params[k]))
  }

  /** Writing one more field under a new name extends what has been written. */
  lemma WrittenStep(out: Params, params: Params, fields: map<string, string>, name: string, value: string)
    requires Written(out, params, fields)
    requires name !in fields
    ensures Written(CreateQueryString(out, name, value), params, fields[name := value])
  {
  }

  /** Writing one group of fields after another writes both. */
  lemma WrittenCompose(out: Params, mid: Params, params: Params, first: map<string, string>, second: map<string, string>)
    requires Written(mid, params, first) && Written(out, mid, second)
    requires first.Keys !! second.Keys
    ensures Written(out, params, first + second)
  {
  }

  /** Deleting a parameter none of the fields names keeps what was written. */
  lemma DropUnwritten(out: Params, params: Params, fields: map<string, string>, name: string)
    requires Written(out, params, fields)
    requires name !in fields
    ensures Written(out - {name}, params - {name}, fields)
  {
  }

  /**
   * Reading a written parameter back as the toolbar's constructor does gives
   * the field's value, or the fallback when the field was empty: a toolbar
   * rebuilt from the URL Apply produced shows the same filters.
   */
  lemma WrittenReadBack(out: Params, params: Params, fields: map<string, string>, name: string, fallback: string)
    requires Written(out, params, fields) && name in fields
    ensures ParamOr(out, name, fallback) == if fields[name] != "" then fields[name] else fallback
  {
  }

  /** How many of the given values are non-empty (`filter(Boolean).length`). */
  function CountNonEmpty(values: seq<string>): (r: nat)
    ensures r == |RemoveAll(values, "")|
    ensures r <= |values|
    ensures r == 0 <==> forall k :: 0 <= k < |values| ==> values[k] == ""
    decreases |values|
  {
    if values == [] then 0
    else CountNonEmpty(values[..|values| - 1]) + (if values[|values| - 1] != "" then 1 else 0)
  }

  class Toolbar {
    var search: string
    var qtype: string
    var sort: string
    var gender: string
    var relation: string
    var sub: string
    var level: string
    const hideTypeSelector: bool

    /** The initial state read from the URL; the sort defaults to newest first. */
    constructor (params: Params, hideType: bool)
      ensures search == ParamOr(params, "q", "") && qtype == ParamOr(params, "type", "")
      ensures sort == ParamOr(params, "sort", DefaultSort)
      ensures gender == ParamOr(params, "gender", "") && relation == ParamOr(params, "relation", "")
      ensures sub == ParamOr(params, "sub", "") && level == ParamOr(params, "level", "")
      ensures hideTypeSelector == hideType
    {
      search := ParamOr(params, "q", "");
      qtype := ParamOr(params, "type", "");
      sort := ParamOr(params, "sort", DefaultSort);
      gender := ParamOr(params, "gender", "");
      relation := ParamOr(params, "relation", "");
      sub := ParamOr(params, "sub", "");
      level := ParamOr(params, "level", "");
      hideTypeSelector := hideType;
    }

    /** The relation selector: a new relation and no sub-relation. */
    method SetRelation(value: string)
      modifies this`relation, this`sub
      ensures relation == value && sub == ""
      ensures SubDisabled() <==> value == ""
    {
      relation := value;
      sub := "";
    }

    /** The sub-relation selector is disabled while no relation is chosen, and then offers nothing. */
    predicate SubDisabled()
      reads this
      ensures SubDisabled() ==> SubOptions() == []
    {
      relation == ""
    }

    /** The sub-relations offered: none without a relation, else those of `RELATION_MAP[relation]`. */
    function SubOptions(): (r: seq<string>)
      reads this
      ensures relation == "" ==> r == []
      ensures relation != "" ==> r == SubsOf(relation)
      ensures NoDup(r)
      ensures forall s :: s in r ==> OwnerOf(s) == Some(relation)
    {
      if relation == "" then []
      else
        SubsOfMatch(relation);
        SubsOfNoDup(relation);
        forall s | s in SubsOf(relation) ensures OwnerOf(s) == Some(relation) {
          SubValuesUnique(OwnerOf(s).value, relation, s);
        }
        match LookupRelation(relation)
        case None => []
        case Some(def) => SubValues(def)
    }

    /** `activeFilterCount`: how many of gender, relation, sub and level are set. */
    function ActiveFilterCount(): (r: nat)
      reads this
      ensures r == |RemoveAll([gender, relation, sub, level], "")|
      ensures r <= 4
      ensures r == 0 <==> gender == "" && relation == "" && sub == "" && level == ""
    {
      var values := [gender, relation, sub, level];
      assert values[0] == gender && values[1] == relation && values[2] == sub && values[3] == level;
      CountNonEmpty(values)
    }

    /** The clear button shows while any field is set or the sort is not the default; in particular whenever a filter is counted. */
    predicate ShowClear()
      reads this
      ensures ActiveFilterCount() > 0 ==> ShowClear()
    {
      search != "" || qtype != "" || gender != "" || relation != "" || sub != "" || level != "" ||
      sort != DefaultSort
    }

    /**
     * `handleSearch`: every field is written into the parameters (set when
     * non-empty, deleted when empty), the page is dropped, and any other
     * parameter is kept.
     */
    method HandleSearch(params: Params) returns (out: Params)
      ensures "page" !in out
      ensures Written(out, params - {"page"}, Fields())
    {
      var basic := WriteBasic(params);
      var advanced := WriteAdvanced(basic);
      WrittenCompose(advanced, basic, params, BasicFields(), AdvancedFields());
      out := advanced - {"page"};
      DropUnwritten(advanced, params, Fields(), "page");
    }

    /** The search box, the type and the sort, written in that order. */
    method WriteBasic(params: Params) returns (out: Params)
      ensures Written(out, params, BasicFields())
    {
      var p1 := CreateQueryString(params, "q", search);
      WrittenStep(params, params, map[], "q", search);
      var p2 := CreateQueryString(p1, "type", qtype);
      WrittenStep(p1, params, map["q" := search], "type", qtype);
      out := CreateQueryString(p2, "sort", sort);
      WrittenStep(p2, params, map["q" := search, "type" := qtype], "sort", sort);
    }

    /** The advanced filters: gender pair, relation, sub-relation and level, in that order. */
    method WriteAdvanced(params: Params) returns (out: Params)
      ensures Written(out, params, AdvancedFields())
    {
      var p1 := CreateQueryString(params, "gender", gender);
      WrittenStep(params, params, map[], "gender", gender);
      var p2 := CreateQueryString(p1, "relation", relation);
      WrittenStep(p1, params, map["gender" := gender], "relation", relation);
      var p3 := CreateQueryString(p2, "sub", sub);
      WrittenStep(p2, params, map["gender" := gender, "relation" := relation], "sub", sub);
      out := CreateQueryString(p3, "level", level);
      WrittenStep(p3, params, map["gender" := gender, "relation" := relation, "sub" := sub], "level", level);
    }

    function BasicFields(): map<string, string>
      reads this
    {
      map["q" := search, "type" := qtype, "sort" := sort]
    }

    function AdvancedFields(): map<string, string>
      reads this
    {
      map["gender" := gender, "relation" := relation, "sub" := sub, "level" := level]
    }

    /** The parameter each field is written to, with its value. */
    function Fields(): (r: map<string, string>)
      reads this
      ensures r.Keys == FieldNames()
    {
      BasicFields() + AdvancedFields()
    }

    /**
     * `clearFilters`: every field is blanked and the sort reset; a toolbar
     * without a type selector keeps its type, and the returned parameters
     * (where the browser goes next) hold only that type when it is set.
     */
    method ClearFilters() returns (target: Params)
      modifies this`search, this`qtype, this`sort, this`gender, this`relation, this`sub, this`level
      ensures search == "" && sort == DefaultSort
      ensures gender == "" && relation == "" && sub == "" && level == ""
      ensures qtype == if hideTypeSelector then old(qtype) else ""
      ensures target == if hideTypeSelector && old(qtype) != "" then map["type" := old(qtype)] else map[]
      ensures ActiveFilterCount() == 0
      ensures ShowClear() <==> hideTypeSelector && qtype != ""
    {
      search := "";
      if !hideTypeSelector {
        qtype := "";
      }
      sort := DefaultSort;
      gender := "";
      relation := "";
      sub := "";
      level := "";
      if hideTypeSelector && qtype != "" {
        target := map["type" := qtype];
      } else {
        target := map[];
      }
    }
  }

  /** The parameter names the toolbar owns, each written by `handleSearch`. */
  function FieldNames(): set<string> {
    {"q", "type", "sort", "gender", "relation", "sub", "level"}
  }
}
