/**
 * The coordinators behind `PickerTextField` and `DateTextField`: a selection
 * that picker callbacks overwrite, reported through `picked` only on "Done".
 * Each call of `picked` is recorded in `reported`; each
 * `resignFirstResponder()` call on the text field is counted in `resignations`.
 */
module Picker {

  /** `PickerTextField.Coordinator`. */
  class PickerCoordinator {
    const titles: seq<string>
    var selectedTitle: string
    var reported: seq<string>
    var resignations: nat

    /** `makeCoordinator()`: starts with no selection (`selectedTitle == ""`). */
    constructor (titles: seq<string>)
      ensures this.titles == titles && selectedTitle == "" && reported == [] && resignations == 0
    {
      this.titles := titles;
      selectedTitle := "";
      reported := [];
      resignations := 0;
    }

    /** `numberOfComponents(in:)`: a single wheel. */
    function NumberOfComponents(): (n: int)
      ensures n == 1
    {
      1
    }

    /** `pickerView(_:numberOfRowsInComponent:)`: one row per title. */
    function NumberOfRows(): (n: nat)
      reads this
      ensures n == |titles|
    {
      |titles|
    }

    /** `pickerView(_:titleForRow:forComponent:)`: subscripting traps outside the list. */
    function TitleForRow(row: int): (t: string)
      reads this
      requires 0 <= row < NumberOfRows()
      ensures t in titles && t == titles[row]
    {
      titles[row]
    }

    /** `pickerView(_:didSelectRow:inComponent:)`: remembers the title, reports nothing. */
    method DidSelectRow(row: int)
      requires 0 <= row < |titles|
      modifies this
      ensures selectedTitle == titles[row]
      ensures reported == old(reported) && resignations == old(resignations)
    {
      selectedTitle := titles[row];
    }

    /** `donePicker()`: reports the current selection and resigns the text field. */
    method Done()
      modifies this
      ensures reported == old(reported) + [selectedTitle] && resignations == old(resignations) + 1
      ensures selectedTitle == old(selectedTitle)
    {
      reported := reported + [selectedTitle];
      resignations := resignations + 1;
    }

    /** `cancelPicker()`: resigns the text field without reporting. */
    method Cancel()
      modifies this
      ensures reported == old(reported) && selectedTitle == old(selectedTitle) && resignations == old(resignations) + 1
    {
      resignations := resignations + 1;
    }
  }

  /** "Done" straight after opening reports the empty title. */
  method DoneWithoutSelection(titles: seq<string>) returns (report: string)
    ensures report == ""
  {
    var c := new PickerCoordinator(titles);
    c.Done();
    report := c.reported[0];
  }

  /** Selecting a row and pressing "Done" reports that row's title. */
  method SelectThenDone(titles: seq<string>, row: int) returns (report: string)
    requires 0 <= row < |titles|
    ensures report == titles[row]
  {
    var c := new PickerCoordinator(titles);
    c.DidSelectRow(row);
    c.Done();
    report := c.reported[0];
  }

  /** `DateTextField.Coordinator`; dates are abstract instants. */
  class DateCoordinator<Date> {
    var selectedDate: Date
    var reported: seq<Date>
    var resignations: nat

    /** `makeCoordinator()`: starts on the current date, given here. */
    constructor (now: Date)
      ensures selectedDate == now && reported == [] && resignations == 0
    {
      selectedDate := now;
      reported := [];
      resignations := 0;
    }

    /** `changed(_:)`: the wheel moved; the date is remembered, not reported. */
    method Changed(date: Date)
      modifies this
      ensures selectedDate == date && reported == old(reported) && resignations == old(resignations)
    {
      selectedDate := date;
    }

    /** `donePicker()`: reports the latest date and resigns the text field. */
    method Done()
      modifies this
      ensures reported == old(reported) + [selectedDate] && resignations == old(resignations) + 1
      ensures selectedDate == old(selectedDate)
    {
      reported := reported + [selectedDate];
      resignations := resignations + 1;
    }

    /** `cancelPicker()`: resigns the text field without reporting. */
    method Cancel()
      modifies this
      ensures reported == old(reported) && selectedDate == old(selectedDate) && resignations == old(resignations) + 1
    {
      resignations := resignations + 1;
    }
  }

  /**
   * After several wheel changes, "Done" reports only the last one, and the
   * text field is resigned once.
   */
  method ChangesThenDone<Date>(now: Date, changes: seq<Date>) returns (report: seq<Date>, resigned: nat)
    ensures report == [if |changes| == 0 then now else changes[|changes| - 1]]
    ensures resigned == 1
  {
    var c := new DateCoordinator(now);
    for k := 0 to |changes|
      invariant c.reported == [] && c.selectedDate == (if k == 0 then now else changes[k - 1])
      invariant c.resignations == 0
    {
      c.Changed(changes[k]);
    }
    c.Done();
    report, resigned := c.reported, c.resignations;
  }
}
