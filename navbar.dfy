/**
 * The navigation bar: a title chosen from the current route, the total number of tests on the
 * dashboard and, on the new-test page, the checklist options selected in the sidebar.
 */
module Navbar {
  import opened Wrappers
  import opened JsStrings
  import Sidebar

  /** The initial `totalTests`; nothing updates it. */
  const DefaultTotalTests := 128

  const TotalPrefix := "Total tests performed: "
  const SelectedPrefix := "Selected: "

  /** `getTitle`: unknown routes fall back to "All Tests". */
  function GetTitle(pathname: string): (title: string)
    ensures title == "Dashboard" <==> pathname == "/"
    ensures title == "New Test" <==> pathname == "/new-test"
    ensures title == "All Tests" <==> pathname != "/" && pathname != "/new-test"
  {
    if pathname == "/" then "Dashboard"
    else if pathname == "/all-tests" then "All Tests"
    else if pathname == "/new-test" then "New Test"
    else "All Tests"
  }

  /** The line under the title that shows the total, rendered on the dashboard only. */
  function TotalTestsLine(pathname: string, totalTests: int): (line: Option<string>)
    ensures line.Some? <==> pathname == "/"
    ensures line.Some? ==> StartsWith(line.value, TotalPrefix)
    ensures line.Some? ==> ParseInt(line.value[|TotalPrefix|..]) == Some(totalTests)
  {
    if pathname == "/" then
      var text := IntToString(totalTests);
      ParseIntOfIntToString(totalTests);
      assert (TotalPrefix + text)[|TotalPrefix|..] == text;
      Some(TotalPrefix + text)
    else None
  }

  /** The line listing the selected options, rendered on the new-test page when there are any. */
  function SelectedLine(pathname: string, selectedOptions: seq<string>): (line: Option<string>)
    ensures line.Some? <==> pathname == "/new-test" && |selectedOptions| > 0
    ensures line.Some? ==> StartsWith(line.value, SelectedPrefix)
    ensures line.Some? ==> line.value[|SelectedPrefix|..] == Join(selectedOptions, ", ")
  {
    if pathname == "/new-test" && |selectedOptions| > 0 then
      var text := Join(selectedOptions, ", ");
      assert (SelectedPrefix + text)[|SelectedPrefix|..] == text;
      Some(SelectedPrefix + text)
    else None
  }

  /** Every selected option is named in the "Selected:" line. */
  lemma SelectedLineNamesEveryOption(selectedOptions: seq<string>, i: nat)
    requires i < |selectedOptions|
    ensures SelectedLine("/new-test", selectedOptions).Some?
    ensures Contains(SelectedLine("/new-test", selectedOptions).value, selectedOptions[i])
  {
    var line := SelectedLine("/new-test", selectedOptions).value;
    var text := Join(selectedOptions, ", ");
    JoinContainsPart(selectedOptions, ", ", i);
    var k :| OccursAt(text, selectedOptions[i], k);
    assert line == SelectedPrefix + text;
    assert line[|SelectedPrefix| + k..|SelectedPrefix| + k + |selectedOptions[i]|]
        == text[k..k + |selectedOptions[i]|];
    assert OccursAt(line, selectedOptions[i], |SelectedPrefix| + k);
  }

  /** The page a sidebar item leads to is titled after that item ("New Test" for "New Semen Test"). */
  lemma {:induction false} TitleAfterSidebarClick(item: string)
    requires Sidebar.NavigationTarget(item).Some?
    ensures GetTitle(Sidebar.NavigationTarget(item).value)
         == if item == Sidebar.NewSemenTest then "New Test" else item
  {
  }
}
