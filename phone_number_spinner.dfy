/**
 * PhoneNumberSpinner's MainActivity: the label chosen in the spinner, and the
 * entered number shown together with it.
 */
module PhoneNumberSpinner {
  import opened Strings

  /** showString: the entered text, " - ", then the label. */
  function ShowString(entered: string, spinnerLabel: string): string
  {
    entered + " - " + spinnerLabel
  }

  /** The shown text starts with the entered text and contains the chosen label. */
  lemma ShowStringParts(entered: string, spinnerLabel: string)
    ensures ShowString(entered, spinnerLabel)[..|entered|] == entered
    ensures Contains(ShowString(entered, spinnerLabel), spinnerLabel)
  {
    var s := ShowString(entered, spinnerLabel);
    assert s[|entered| + 3..] == spinnerLabel;
  }

  class MainActivity {
    var spinnerLabel: string
    /** The text of `editText_main`, as the user typed it. */
    var editText: string
    /** The text of `text_phonelabel`. */
    var phoneLabel: string

    constructor ()
      ensures spinnerLabel == "" && editText == "" && phoneLabel == ""
    {
      spinnerLabel := "";
      editText := "";
      phoneLabel := "";
    }

    /** showText: the label view shows the entered text and the current spinner label. */
    method ShowText()
      modifies this
      ensures phoneLabel == ShowString(editText, spinnerLabel)
      ensures spinnerLabel == old(spinnerLabel) && editText == old(editText)
    {
      var showString := editText + " - " + spinnerLabel;
      phoneLabel := showString;
    }

    /** onItemSelected: the label becomes the selected item's text and is shown at once. */
    method OnItemSelected(items: seq<string>, pos: int)
      requires 0 <= pos < |items|
      modifies this
      ensures spinnerLabel == items[pos] && editText == old(editText)
      ensures phoneLabel == ShowString(editText, items[pos])
    {
      spinnerLabel := items[pos];
      ShowText();
    }

    /** onNothingSelected only logs: the label and the views stay as they are. */
    method OnNothingSelected()
    {
    }

    /**
     * The spinner selection scenario: choose item i, press the submit button,
     * and the shown text contains item i.
     */
    method SelectAndSubmit(items: seq<string>, i: int)
      requires 0 <= i < |items|
      modifies this
      ensures spinnerLabel == items[i]
      ensures Contains(phoneLabel, items[i])
    {
      OnItemSelected(items, i);
      ShowText();
      ShowStringParts(editText, items[i]);
    }

    /**
     * The whole selection test: every item in turn is selected and submitted,
     * and each shown text contains the item selected for it.
     */
    method IterateSpinnerItems(items: seq<string>) returns (shown: seq<string>)
      modifies this
      ensures |shown| == |items|
      ensures forall i :: 0 <= i < |items| ==> Contains(shown[i], items[i])
    {
      shown := [];
      for i := 0 to |items|
        invariant |shown| == i
        invariant forall j :: 0 <= j < i ==> Contains(shown[j], items[j])
      {
        SelectAndSubmit(items, i);
        shown := shown + [phoneLabel];
      }
    }
  }
}
