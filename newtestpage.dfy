/**
 * The new-test form: five text fields, edited one at a time, checked for blanks when the technologist
 * begins the test, and cleared by Cancel. The form is a JavaScript object, modelled as its list of
 * entries in insertion order (the order `Object.entries` reports them in).
 */
module NewTestPage {
  import opened Wrappers
  import opened JsStrings

  datatype Entry = Entry(key: string, value: string)

  type Form = seq<Entry>

  /** The fields of the form, in the order they are created and rendered. */
  const FieldIds: seq<string> := ["scientist", "testId", "volume", "days", "dilution"]

  const IncompleteMessage := "\U{26A0}\U{FE0F} Please complete all fields before continuing."

  /** No key occurs twice, as in any object. */
  predicate DistinctKeys(form: Form) {
    forall i, j :: 0 <= i < j < |form| ==> form[i].key != form[j].key
  }

  /** The position of `key` among the form's entries: the first entry with that key. */
  function KeyIndex(form: Form, key: string): (r: Option<nat>)
    ensures r.Some? ==> r.value < |form| && form[r.value].key == key
    ensures r.Some? ==> forall j :: 0 <= j < r.value ==> form[j].key != key
    ensures r.None? ==> forall j :: 0 <= j < |form| ==> form[j].key != key
  {
    if form == [] then None
    else if form[0].key == key then Some(0)
    else
      match KeyIndex(form[1..], key)
      case None => None
      case Some(i) => Some(i + 1)
  }

  /** The first entry with the key is the one `KeyIndex` finds. */
  lemma KeyIndexIsFirst(form: Form, key: string, i: nat)
    requires i < |form| && form[i].key == key
    requires forall j :: 0 <= j < i ==> form[j].key != key
    ensures KeyIndex(form, key) == Some(i)
  {
  }

  /** `form[key]`: the value of the entry with that key, if there is one. */
  function Lookup(form: Form, key: string): (v: Option<string>)
    ensures v.None? <==> forall i :: 0 <= i < |form| ==> form[i].key != key
    ensures v.Some? ==> Entry(key, v.value) in form
  {
    match KeyIndex(form, key)
    case None => None
    case Some(i) => Some(form[i].value)
  }

  /** The form `handleCancel` resets to, also used when the page is opened without state. */
  function EmptyForm(): (form: Form)
    ensures |form| == |FieldIds| && DistinctKeys(form)
    ensures forall i :: 0 <= i < |form| ==> form[i] == Entry(FieldIds[i], "")
  {
    [Entry("scientist", ""), Entry("testId", ""), Entry("volume", ""), Entry("days", ""),
     Entry("dilution", "")]
  }

  /**
   * `{ ...prev, [id]: value }`: an existing key keeps its position and takes the new value; a new
   * key is appended.
   */
  function SetField(prev: Form, id: string, value: string): (next: Form)
    ensures Lookup(next, id) == Some(value)
    ensures Lookup(prev, id).Some? ==> |next| == |prev|
    ensures Lookup(prev, id).None? ==> next == prev + [Entry(id, value)]
    ensures forall i :: 0 <= i < |prev| ==> next[i].key == prev[i].key
    ensures forall i :: 0 <= i < |prev| && prev[i].key != id ==> next[i] == prev[i]
  {
    match KeyIndex(prev, id)
    case None =>
      var next := prev + [Entry(id, value)];
      assert next[|prev|].key == id && KeyIndex(next, id).Some?;
      next
    case Some(i) =>
      var next := prev[i := Entry(id, value)];
      KeyIndexIsFirst(next, id, i);
      next
  }

  /** Setting one field leaves every other field as it was. */
  lemma SetFieldKeepsOthers(prev: Form, id: string, value: string, k: string)
    requires k != id
    ensures Lookup(SetField(prev, id, value), k) == Lookup(prev, k)
  {
    var next := SetField(prev, id, value);
    match KeyIndex(prev, k)
    case None =>
      assert forall j :: 0 <= j < |next| ==> next[j].key != k;
    case Some(i) =>
      KeyIndexIsFirst(next, k, i);
  }

  /** Setting a field never gives the form a second entry with the same key. */
  lemma {:induction false} SetFieldKeepsDistinctKeys(prev: Form, id: string, value: string)
    requires DistinctKeys(prev)
    ensures DistinctKeys(SetField(prev, id, value))
  {
    var next := SetField(prev, id, value);
    if Lookup(prev, id).None? {
      forall i, j | 0 <= i < j < |next| ensures next[i].key != next[j].key {
        if j == |prev| {
          assert next[i].key == prev[i].key;
        }
      }
    }
  }

  /** Every field holds something other than white space. */
  predicate Complete(form: Form) {
    forall i :: 0 <= i < |form| ==> !IsBlank(form[i].value)
  }

  /** `Object.entries(form).find(([, val]) => val.trim() === "")`. */
  function FirstBlankEntry(form: Form): (e: Option<Entry>)
    ensures e.Some? ==> e.value in form && IsBlank(e.value.value)
    ensures e.None? ==> Complete(form)
    ensures Complete(form) ==> e.None?
  {
    if form == [] then None
    else if Trim(form[0].value) == "" then
      TrimEmptyIffBlank(form[0].value);
      Some(form[0])
    else
      TrimEmptyIffBlank(form[0].value);
      FirstBlankEntry(form[1..])
  }

  /** The entry found is the first blank one: every entry before it holds something. */
  lemma {:induction false} FirstBlankEntryIsFirst(form: Form, i: nat)
    requires i < |form| && IsBlank(form[i].value)
    requires forall j :: 0 <= j < i ==> !IsBlank(form[j].value)
    ensures FirstBlankEntry(form) == Some(form[i])
  {
    if i == 0 {
      FirstBlankEntryStep(form);
    } else {
      FirstBlankEntryStep(form);
      var rest := form[1..];
      forall j | 0 <= j < i - 1
        ensures !IsBlank(rest[j].value)
      {
        assert rest[j] == form[j + 1];
      }
      FirstBlankEntryIsFirst(rest, i - 1);
    }
  }

  /** One step of the search: a blank head is found, a filled one is skipped. */
  lemma FirstBlankEntryStep(form: Form)
    requires form != []
    ensures IsBlank(form[0].value) ==> FirstBlankEntry(form) == Some(form[0])
    ensures !IsBlank(form[0].value) ==> FirstBlankEntry(form) == FirstBlankEntry(form[1..])
  {
    TrimEmptyIffBlank(form[0].value);
  }

  /** A form that has been cleared cannot be submitted. */
  lemma EmptyFormIncomplete()
    ensures !Complete(EmptyForm())
  {
    assert IsBlank(EmptyForm()[0].value);
  }

  /** Typing a non-blank value into a field of a complete form keeps it complete. */
  lemma SetFieldKeepsComplete(prev: Form, id: string, value: string)
    requires Complete(prev) && !IsBlank(value)
    ensures Complete(SetField(prev, id, value))
  {
  }

  /** Typing into one field does not make up for another field that is still blank. */
  lemma SetFieldKeepsOtherBlank(prev: Form, id: string, value: string, i: nat)
    requires i < |prev| && prev[i].key != id && IsBlank(prev[i].value)
    ensures !Complete(SetField(prev, id, value))
  {
  }

  /** The state of the new-test page: the form and the error banner. */
  class NewTestForm {
    var form: Form
    var error: string

    /** `useState(location.state || {...})`: the state handed back by the started-test page, if any. */
    constructor(state: Option<Form>)
      ensures form == (if state.Some? then state.value else EmptyForm())
      ensures error == ""
    {
      form := if state.Some? then state.value else EmptyForm();
      error := "";
    }

    /** An input is outlined in red while an error is shown and the input is blank. */
    predicate FieldHighlighted(id: string)
      reads this
    {
      error != "" && Lookup(form, id).Some? && Trim(Lookup(form, id).value) == ""
    }

    /** `handleChange`: one field takes the typed value; the error is cleared. */
    method HandleChange(id: string, value: string)
      modifies this
      ensures form == SetField(old(form), id, value)
      ensures error == ""
      ensures !FieldHighlighted(id)
    {
      form := SetField(form, id, value);
      error := "";
    }

    /**
     * `handleBeginTest`: with a blank field the error is shown and nothing happens; otherwise the
     * page navigates to the started test, handing over the form.
     */
    method HandleBeginTest() returns (started: Option<Form>)
      modifies this
      ensures form == old(form)
      ensures started.Some? <==> Complete(form)
      ensures started.Some? ==> started.value == form && error == old(error)
      ensures started.None? ==> error == IncompleteMessage
    {
      var emptyField := FirstBlankEntry(form);
      if emptyField.Some? {
        error := IncompleteMessage;
        return None;
      }
      started := Some(form);
    }

    /** `handleCancel`: every field cleared, the error hidden. */
    method HandleCancel()
      modifies this
      ensures form == EmptyForm() && error == ""
      ensures !Complete(form)
    {
      form := EmptyForm();
      error := "";
      EmptyFormIncomplete();
    }
  }
}
