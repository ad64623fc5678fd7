/**
 * The sidebar: clicking one of its items records it as the active item, navigates to that item's
 * page and opens or closes the checklist under "New Semen Test"; ticking a checklist box toggles
 * that option in the list of selected options shared with the navigation bar.
 */
module Sidebar {
  import opened Wrappers
  import opened JsArrays

  const NewSemenTest := "New Semen Test"

  /** The boxes of the checklist shown under "New Semen Test". */
  const ChecklistOptions: seq<string> := ["All Parameters", "Plain Sample", "Vitality", "pH Test"]

  /** The page `handleItemClick` navigates to for a clicked item; other items navigate nowhere. */
  function NavigationTarget(item: string): (route: Option<string>)
    ensures route.Some? <==> item == "Dashboard" || item == "All Tests" || item == NewSemenTest
    ensures route.Some? ==> route.value != [] && route.value[0] == '/'
    ensures item == "Dashboard" ==> route == Some("/")
    ensures item == "All Tests" ==> route == Some("/all-tests")
    ensures item == NewSemenTest ==> route == Some("/new-test")
  {
    if item == "Dashboard" then Some("/")
    else if item == "All Tests" then Some("/all-tests")
    else if item == NewSemenTest then Some("/new-test")
    else None
  }

  /**
   * The updater `toggleOption` hands to `setSelectedOptions`: a selected option is removed (every
   * copy of it), an unselected one is appended.
   */
  function Toggled(prev: seq<string>, option: string): (next: seq<string>)
    ensures option in next <==> option !in prev
    ensures option !in prev ==> next == prev + [option]
    ensures forall i :: 0 <= i < |prev| && prev[i] != option ==> prev[i] in next
    ensures forall i :: 0 <= i < |next| ==> next[i] in prev || next[i] == option
    ensures option in prev ==> IsSubsequence(next, prev)
  {
    if option in prev then
      FilterIsSubsequence(prev, item => item != option);
      Filter(prev, item => item != option)
    else prev + [option]
  }

  /** Ticking a box and unticking it again leaves the selection as it was. */
  lemma ToggledTwiceRestores(prev: seq<string>, option: string)
    requires option !in prev
    ensures Toggled(Toggled(prev, option), option) == prev
  {
    var p := item => item != option;
    FilterAppend(prev, [option], p);
    FilterKeepsAll(prev, p);
    assert Filter([option], p) == [];
  }

  /** Toggling never creates a duplicate entry in the selection. */
  lemma ToggledKeepsNoDuplicates(prev: seq<string>, option: string)
    requires NoDuplicates(prev)
    ensures NoDuplicates(Toggled(prev, option))
  {
    if option in prev {
      FilterNoDuplicates(prev, item => item != option);
    } else {
      var next := prev + [option];
      forall i, j | 0 <= i < j < |next| ensures next[i] != next[j] {
        if j == |prev| {
          assert next[i] == prev[i];
        }
      }
    }
  }

  /**
   * The sidebar's state (`activeItem`, `showDropdown`) together with the selected options it
   * shares with the navigation bar through the form-options context.
   */
  class SidebarView {
    var activeItem: Option<string>
    var showDropdown: bool
    var selectedOptions: seq<string>

    /** The selection never lists an option twice. */
    predicate Valid()
      reads this
    {
      NoDuplicates(selectedOptions)
    }

    /** The checklist is rendered while the dropdown is open and "New Semen Test" is active. */
    predicate ChecklistVisible()
      reads this
    {
      showDropdown && activeItem == Some(NewSemenTest)
    }

    /** The initial state: nothing active, the dropdown closed, no option selected. */
    constructor()
      ensures activeItem == None && !showDropdown && selectedOptions == []
      ensures Valid() && !ChecklistVisible()
    {
      activeItem := None;
      showDropdown := false;
      selectedOptions := [];
    }

    /** `handleItemClick`: returns the page navigated to, if any. */
    method HandleItemClick(item: string) returns (route: Option<string>)
      modifies this
      ensures route == NavigationTarget(item)
      ensures activeItem == Some(item)
      ensures showDropdown == (item == NewSemenTest && !old(showDropdown))
      ensures selectedOptions == old(selectedOptions)
      ensures ChecklistVisible() <==> item == NewSemenTest && !old(showDropdown)
    {
      activeItem := Some(item);
      route := None;
      if item == "Dashboard" {
        route := Some("/");
      }
      if item == "All Tests" {
        route := Some("/all-tests");
      }
      if item == NewSemenTest {
        showDropdown := !showDropdown;
        route := Some("/new-test");
      } else {
        showDropdown := false;
      }
    }

    /** `toggleOption`: flips one checklist option in the shared selection. */
    method ToggleOption(option: string)
      requires Valid()
      modifies this
      ensures selectedOptions == Toggled(old(selectedOptions), option)
      ensures activeItem == old(activeItem) && showDropdown == old(showDropdown)
      ensures Valid()
    {
      ToggledKeepsNoDuplicates(selectedOptions, option);
      selectedOptions := Toggled(selectedOptions, option);
    }
  }
}
