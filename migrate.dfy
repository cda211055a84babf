/**
 * The one-off CSV import (scripts/migrate-to-supabase.js): each CSV record
 * becomes a store row of type 'B' (Balance file) or 'T' (Truth file), its
 * CodeName column split on commas into a cleaned code list, and rows without
 * a q_id or content are dropped. Reading the files and the upsert are I/O;
 * the records arrive as values and the clock reading as a parameter.
 */
module Migrate {
  import opened Wrappers
  import opened Text
  import opened Lists
  import opened Types
  import opened Actions

  /** One parsed CSV record; a column the record lacks is None. */
  datatype CsvRecord = CsvRecord(
    qId: Option<string>,
    content: Option<string>,
    codeName: Option<string>,
    choiceA: Option<string>,
    choiceB: Option<string>,
    answers: Option<string>)

  /** The row the script upserts. */
  datatype MigratedRow = MigratedRow(
    qId: Option<string>,
    qtype: string,
    content: Option<string>,
    details: Details,
    codeNames: seq<string>,
    createdAt: string)

  /** Neither starts nor ends with whitespace. */
  predicate Trimmed(s: string) {
    s == [] || (!IsSpace(s[0]) && !IsSpace(s[|s| - 1]))
  }

  /** `parts.map(s => s.trim())`: each part with its surrounding whitespace cut off, in place. */
  function TrimEach(parts: seq<string>): (r: seq<string>)
    ensures |r| == |parts|
    ensures forall k :: 0 <= k < |r| ==> Trimmed(r[k]) && TrimOf(r[k], parts[k])
  {
    seq(|parts|, k requires 0 <= k < |parts| => Trim(parts[k]))
  }

  /**
   * `(record.CodeName || '').split(',').map(s => s.trim()).filter(Boolean)`:
   * the trimmed comma-separated pieces, empty ones dropped. A code is kept
   * as written; nothing checks it against the code taxonomy.
   */
  function ParseCodeNames(codeName: Option<string>): (r: seq<string>)
    ensures forall c :: c in r ==> c != "" && ',' !in c && Trimmed(c)
    ensures forall c :: c in r <==> c != "" && c in TrimEach(Split(OrElse(codeName, ""), ','))
    ensures IsSubsequence(r, TrimEach(Split(OrElse(codeName, ""), ',')))
    ensures multiset(r) == multiset(TrimEach(Split(OrElse(codeName, ""), ',')))["" := 0]
  {
    var pieces := Split(OrElse(codeName, ""), ',');
    var trimmed := TrimEach(pieces);
    forall c ensures c in RemoveAll(trimmed, "") <==> c in trimmed && c != "" {
      RemoveAllMembers(trimmed, "", c);
    }
    forall c | c in trimmed ensures ',' !in c && Trimmed(c) {
      var k :| 0 <= k < |trimmed| && trimmed[k] == c;
      TrimCommaFree(c, pieces[k]);
    }
    RemoveAllOrdered(trimmed, "");
    RemoveAllCount(trimmed, "");
    RemoveAll(trimmed, "")
  }

  /** Trimming a comma-free piece leaves it comma-free. */
  lemma TrimCommaFree(r: string, s: string)
    requires TrimOf(r, s) && ',' !in s
    ensures ',' !in r
  {
    var i, j :| 0 <= i <= j <= |s| && r == s[i..j] && Surrounding(s, i, j);
    SliceMembers(s, i, j);
  }

  /** A missing or empty CodeName column gives no codes. */
  lemma NoCodeName(codeName: Option<string>)
    requires !Present(codeName)
    ensures ParseCodeNames(codeName) == []
  {
    SplitWithoutSeparator("", ',');
    assert TrimEach([""]) == [""];
  }

  /**
   * Joining non-empty, trimmed, comma-free codes with commas and parsing the
   * column gives the codes back, in order.
   */
  lemma CodeNamesRoundTrip(codes: seq<string>)
    requires |codes| >= 1
    requires forall k :: 0 <= k < |codes| ==> codes[k] != "" && ',' !in codes[k] && Trimmed(codes[k])
    ensures ParseCodeNames(Some(Join(codes, ','))) == codes
  {
    var joined := Join(codes, ',');
    SplitJoin(codes, ',');
    assert OrElse(Some(joined), "") == joined;
    TrimEachTrimmed(codes);
    assert "" !in codes by {
      forall k | 0 <= k < |codes| ensures codes[k] != "" {
      }
    }
    RemoveAbsent(codes, "");
  }

  /** Trimming pieces that are already trimmed changes none of them. */
  lemma TrimEachTrimmed(parts: seq<string>)
    requires forall k :: 0 <= k < |parts| ==> Trimmed(parts[k])
    ensures TrimEach(parts) == parts
  {
    forall k | 0 <= k < |parts| ensures TrimEach(parts)[k] == parts[k] {
      TrimmedFixpoint(parts[k]);
    }
  }

  /** A single code of any spelling is stored as it is. */
  lemma VerbatimCode(code: string)
    requires code != "" && ',' !in code && Trimmed(code)
    ensures ParseCodeNames(Some(code)) == [code]
  {
    CodeNamesRoundTrip([code]);
    assert Join([code], ',') == code;
  }

  /**
   * The Balance file's mapping: type 'B', the record's q_id, content and
   * choices, only the choice keys in the details, and clean codes.
   */
  function BalanceRow(rec: CsvRecord, createdAt: string): (r: MigratedRow)
    ensures r.qtype == "B" && r.qId == rec.qId && r.content == rec.content && r.createdAt == createdAt
    ensures r.details.choiceA == rec.choiceA && r.details.choiceB == rec.choiceB
    ensures r.details.answers.None? && r.details.gameCode.None? && r.details.difficulty.None? && r.details.config.None?
    ensures forall c :: c in r.codeNames ==> c != "" && ',' !in c && Trimmed(c)
  {
    MigratedRow(rec.qId, "B", rec.content, Details(rec.choiceA, rec.choiceB, None, None, None, None),
                ParseCodeNames(rec.codeName), createdAt)
  }

  /**
   * The Truth file's mapping: type 'T', the record's q_id, content and
   * answers, only the answers key in the details, and clean codes.
   */
  function TruthRow(rec: CsvRecord, createdAt: string): (r: MigratedRow)
    ensures r.qtype == "T" && r.qId == rec.qId && r.content == rec.content && r.createdAt == createdAt
    ensures r.details.answers == rec.answers
    ensures r.details.choiceA.None? && r.details.choiceB.None? && r.details.gameCode.None? && r.details.difficulty.None? && r.details.config.None?
    ensures forall c :: c in r.codeNames ==> c != "" && ',' !in c && Trimmed(c)
  {
    MigratedRow(rec.qId, "T", rec.content, Details(None, None, rec.answers, None, None, None),
                ParseCodeNames(rec.codeName), createdAt)
  }

  /** `filter(r => r.q_id && r.content)`: the rows with both a q_id and content, in order. */
  function KeepComplete(rows: seq<MigratedRow>): (r: seq<MigratedRow>)
    ensures |r| <= |rows|
    ensures forall row :: row in r ==> row in rows && Present(row.qId) && Present(row.content)
    decreases |rows|
  {
    if rows == [] then []
    else
      var rest := KeepComplete(rows[..|rows| - 1]);
      var row := rows[|rows| - 1];
      if Present(row.qId) && Present(row.content) then rest + [row] else rest
  }

  /** Which file is being imported. */
  datatype Source = BalanceFile | TruthFile

  function RowFor(source: Source, rec: CsvRecord, createdAt: string): MigratedRow {
    match source
    case BalanceFile => BalanceRow(rec, createdAt)
    case TruthFile => TruthRow(rec, createdAt)
  }

  /** The type letter a file's rows carry. */
  function Letter(source: Source): string {
    if source == BalanceFile then "B" else "T"
  }

  /** `records.map(...)` for one file: one row per record, in place, with the record's q_id and content and the file's letter. */
  function MapRecords(source: Source, records: seq<CsvRecord>, createdAt: string): (r: seq<MigratedRow>)
    ensures |r| == |records|
    ensures forall k :: 0 <= k < |r| ==>
              r[k].qId == records[k].qId && r[k].content == records[k].content && r[k].qtype == Letter(source)
  {
    seq(|records|, k requires 0 <= k < |records| => RowFor(source, records[k], createdAt))
  }

  /** The rows one file contributes: its records mapped, incomplete ones dropped. */
  function MigrateFile(source: Source, records: seq<CsvRecord>, createdAt: string): (r: seq<MigratedRow>)
    ensures |r| <= |records|
    ensures forall row :: row in r ==> row.qtype == Letter(source) && Present(row.qId) && Present(row.content)
  {
    KeepComplete(MapRecords(source, records, createdAt))
  }

  /** Exactly the complete rows survive the filter. */
  lemma {:induction false} KeepCompleteMembers(rows: seq<MigratedRow>, row: MigratedRow)
    ensures row in KeepComplete(rows) <==> row in rows && Present(row.qId) && Present(row.content)
    decreases |rows|
  {
    if rows != [] {
      KeepCompleteMembers(rows[..|rows| - 1], row);
      assert rows == rows[..|rows| - 1] + [rows[|rows| - 1]];
    }
  }

  /** The filter keeps the surviving rows in their CSV order. */
  lemma {:induction false} KeepCompleteOrdered(rows: seq<MigratedRow>)
    ensures IsSubsequence(KeepComplete(rows), rows)
    decreases |rows|
  {
    if rows != [] {
      var k := |rows| - 1;
      var init := rows[..k];
      KeepCompleteOrdered(init);
      var kept := KeepComplete(init);
      if Present(rows[k].qId) && Present(rows[k].content) {
        assert (kept + [rows[k]])[..|kept|] == kept;
      } else {
        SubsequenceExtend(kept, init, rows[k]);
        assert init + [rows[k]] == rows;
      }
    }
  }

  /**
   * A file's rows: each is the mapping of a record with a q_id and content,
   * every such record yields one, they keep the CSV order, and they all
   * carry the file's type letter.
   */
  lemma MigrateFileShape(source: Source, records: seq<CsvRecord>, createdAt: string)
    ensures forall row :: row in MigrateFile(source, records, createdAt) ==>
              exists k :: 0 <= k < |records| && row == RowFor(source, records[k], createdAt) &&
                Present(records[k].qId) && Present(records[k].content)
    ensures forall k :: 0 <= k < |records| && Present(records[k].qId) && Present(records[k].content) ==>
              RowFor(source, records[k], createdAt) in MigrateFile(source, records, createdAt)
    ensures forall row :: row in MigrateFile(source, records, createdAt) ==>
              row.qtype == Letter(source)
    ensures IsSubsequence(MigrateFile(source, records, createdAt), MapRecords(source, records, createdAt))
  {
    var mapped := MapRecords(source, records, createdAt);
    forall row ensures row in MigrateFile(source, records, createdAt) <==>
        row in mapped && Present(row.qId) && Present(row.content) {
      KeepCompleteMembers(mapped, row);
    }
    forall k | 0 <= k < |records| && Present(records[k].qId) && Present(records[k].content)
      ensures RowFor(source, records[k], createdAt) in MigrateFile(source, records, createdAt)
    {
      assert mapped[k] == RowFor(source, records[k], createdAt);
    }
    KeepCompleteOrdered(mapped);
  }

  /** The stored form of a migrated row, with the id the store assigns. */
  function Stored(row: MigratedRow, id: Option<string>): Row
    requires row.qId.Some? && row.content.Some?
  {
    Row(id, row.qId.value, row.qtype, row.content.value, Some(row.codeNames), Some(row.createdAt), Some(row.details))
  }

  /**
   * A migrated Balance record loads back as a Balance question with its
   * q_id, content, codes and choices (a missing choice reads as "").
   */
  lemma BalanceLoads(rec: CsvRecord, createdAt: string, id: Option<string>)
    requires Present(rec.qId) && Present(rec.content)
    ensures MapRowToQuestion(Stored(BalanceRow(rec, createdAt), id)) ==
              Known(BalanceQuestion(
                Base(id, rec.qId.value, rec.content.value, Some(createdAt), Some(ParseCodeNames(rec.codeName)), None, None, NoUi()),
                OrElse(rec.choiceA, ""), OrElse(rec.choiceB, ""), None, None))
  {
  }

  /** A migrated Truth record loads back as a Truth question with its answers (missing reads as ""). */
  lemma TruthLoads(rec: CsvRecord, createdAt: string, id: Option<string>)
    requires Present(rec.qId) && Present(rec.content)
    ensures MapRowToQuestion(Stored(TruthRow(rec, createdAt), id)) ==
              Known(TruthQuestion(
                Base(id, rec.qId.value, rec.content.value, Some(createdAt), Some(ParseCodeNames(rec.codeName)), None, None, NoUi()),
                Some(OrElse(rec.answers, "")), None))
  {
    var row := Stored(TruthRow(rec, createdAt), id);
    assert row.qtype == "T" && row.qtype != "B";
    assert row.details.GetOr(NoDetails).answers == rec.answers;
  }
}
