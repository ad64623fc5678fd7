/**
 * The search and type filter of the tests table (src/components/table/TableComponent.tsx): a row
 * is shown when its scientist or its test id contains the search text, ignoring case, and its
 * test type is the selected one (or no type is selected).
 */
module TableComponent {
  import opened JsStrings
  import opened JsArrays

  datatype Row = Row(diagnosticianName: string, testId: string, dateOfTest: string, testType: string, status: string)

  predicate MatchesSearch(row: Row, search: string) {
    Contains(ToLower(row.diagnosticianName), ToLower(search)) || Contains(ToLower(row.testId), ToLower(search))
  }

  predicate MatchesType(row: Row, selectedOption: string) {
    selectedOption == "" || row.testType == selectedOption
  }

  predicate RowMatches(row: Row, search: string, selectedOption: string) {
    MatchesSearch(row, search) && MatchesType(row, selectedOption)
  }

  /** `filteredData`: the matching rows. */
  function FilteredData(rows: seq<Row>, search: string, selectedOption: string): (shown: seq<Row>)
    ensures forall i :: 0 <= i < |shown| ==> shown[i] in rows && RowMatches(shown[i], search, selectedOption)
    ensures forall i :: 0 <= i < |rows| && RowMatches(rows[i], search, selectedOption) ==> rows[i] in shown
  {
    Filter(rows, row => RowMatches(row, search, selectedOption))
  }

  /** The shown rows keep the table's order. */
  lemma FilteredKeepsOrder(rows: seq<Row>, search: string, selectedOption: string)
    ensures IsSubsequence(FilteredData(rows, search, selectedOption), rows)
  {
    FilterIsSubsequence(rows, row => RowMatches(row, search, selectedOption));
  }

  /** With no search text and no type selected every row is shown. */
  lemma EmptyFilterShowsAll(rows: seq<Row>)
    ensures FilteredData(rows, "", "") == rows
  {
    forall i | 0 <= i < |rows| ensures RowMatches(rows[i], "", "") {
      assert OccursAt(ToLower(rows[i].diagnosticianName), ToLower(""), 0);
    }
    FilterKeepsAll(rows, row => RowMatches(row, "", ""));
  }

  /** The search ignores case: searching for the lower-cased text shows the same rows. */
  lemma SearchIgnoresCase(rows: seq<Row>, search: string, selectedOption: string)
    ensures FilteredData(rows, ToLower(search), selectedOption) == FilteredData(rows, search, selectedOption)
  {
    ToLowerIdempotent(search);
    FilterSameCondition(rows, row => RowMatches(row, ToLower(search), selectedOption),
                        row => RowMatches(row, search, selectedOption));
  }

  /** The type comparison does not ignore case: "vitality" does not select a "Vitality" row. */
  lemma TypeMatchIsExact(row: Row, search: string)
    requires row.testType == "Vitality"
    ensures !RowMatches(row, search, "vitality")
  {
    assert row.testType[0] != "vitality"[0];
  }

  /** Selecting a type never shows a row that was hidden without it, and keeps the order. */
  lemma TypeFilterOnlyNarrows(rows: seq<Row>, search: string, selectedOption: string)
    ensures IsSubsequence(FilteredData(rows, search, selectedOption), FilteredData(rows, search, ""))
  {
    FilterStricter(rows, row => RowMatches(row, search, selectedOption), row => RowMatches(row, search, ""));
  }
}
