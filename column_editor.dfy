/**
  A mounted filter editor (tst-table-column.tsx:117-338, `FilterTypes`):
  its four React state cells, the column definition's `filterFn` that every
  render resolves, and the column's filter value that its handlers set.
 */
module ColumnEditor {
  import opened Wrappers
  import opened ColumnFilter

  /** A day-picker range as the calendar reports it: either end may be missing. */
  datatype RangeSelection = RangeSelection(from: Option<Millis>, to: Option<Millis>)

  /** The `toISOString` of an instant, kept abstract (an ISO-8601 string). */
  type IsoFormat = Millis -> string

  class FilterTypes {
    /** `columnDef.filterType`. */
    const filterType: Option<string>
    /** `columnDef.filterFn`: part of the column definition, so it outlives
        the component. */
    var filterFn: FilterFn
    /** The value last passed to `setFilterValue`; `None` until set. (The
        library itself drops a column filter set to "".) */
    var filterValue: Option<FilterValue>
    /** The editor's own state cells (lines 121-124). */
    var selectedValue: Option<string>
    var inputValue: string
    var date: Option<Millis>
    var dateRange: Option<RangeSelection>

    /** Resolution has run: rendering again installs nothing. */
    ghost predicate Valid()
      reads this
    {
      Resolve(filterType, filterFn) == filterFn
    }

    /** Mounting: fresh editor cells, the column's filter function and value
        as they were before, then the first render's resolution. */
    constructor (filterType: Option<string>, filterFn: FilterFn, filterValue: Option<FilterValue>)
      ensures Valid()
      ensures this.filterType == filterType
      ensures this.filterFn == Resolve(filterType, filterFn)
      ensures this.filterValue == filterValue
      ensures selectedValue == None && inputValue == "" && date == None && dateRange == None
    {
      this.filterType := filterType;
      this.filterFn := Resolve(filterType, filterFn);
      this.filterValue := filterValue;
      selectedValue := None;
      inputValue := "";
      date := None;
      dateRange := None;
    }

    /** Every render runs the resolution of lines 126-155 again; after the
        first one it changes nothing. */
    method Render()
      requires Valid()
      modifies this`filterFn
      ensures filterFn == Resolve(filterType, old(filterFn))
      ensures filterFn == old(filterFn)
    {
      filterFn := Resolve(filterType, filterFn);
    }

    /** The text editor's change handler (lines 176-180): the filter value is
        `String` of the typed text. The editor's clear button has no handler. */
    method OnInput(text: string)
      requires EditorFor(filterType) == InputEditor
      modifies this`filterValue, this`inputValue
      ensures filterValue == Some(Text(text))
      ensures inputValue == text
    {
      filterValue := Some(Text(text));
      inputValue := text;
    }

    /** Choosing an option of the select editor (lines 197-200). */
    method OnSelect(v: string)
      requires EditorFor(filterType) == SelectEditor
      modifies this`filterValue, this`selectedValue
      ensures filterValue == Some(Text(v))
      ensures selectedValue == Some(v)
    {
      filterValue := Some(Text(v));
      selectedValue := Some(v);
    }

    /** "Cancella" in the select editor (lines 220-223). */
    method ClearSelect()
      requires EditorFor(filterType) == SelectEditor
      modifies this`filterValue, this`selectedValue
      ensures filterValue == Some(Text(""))
      ensures selectedValue == Some("")
    {
      filterValue := Some(Text(""));
      selectedValue := Some("");
    }

    /** Picking a day in the date editor (lines 254-257). The day is stored
        first; the filter value is then its ISO string. Deselecting the day
        gives `undefined`, whose `new Date("")` is an Invalid Date, and
        `toISOString` throws: the filter value stays as it was. */
    method OnDate(d: Option<Millis>, toIso: IsoFormat) returns (ok: bool)
      requires EditorFor(filterType) == DateEditor
      modifies this`filterValue, this`date
      ensures date == d
      ensures ok <==> d.Some?
      ensures filterValue == if d.Some? then Some(Text(toIso(d.value))) else old(filterValue)
    {
      date := d;
      ok := d.Some?;
      if ok {
        filterValue := Some(Text(toIso(d.value)));
      }
    }

    /** "Cancella filtro" in the date editor (lines 263-266). */
    method ClearDate()
      requires EditorFor(filterType) == DateEditor
      modifies this`filterValue, this`date
      ensures filterValue == Some(Text(""))
      ensures date == None
    {
      filterValue := Some(Text(""));
      date := None;
    }

    /** Selecting in the range editor (lines 298-306): nothing at all for an
        empty selection; otherwise the selection is stored, and the filter
        value becomes the pair of ISO strings only once both ends are chosen. */
    method OnRange(sel: Option<RangeSelection>, toIso: IsoFormat)
      requires EditorFor(filterType) == DateRangeEditor
      modifies this`filterValue, this`dateRange
      ensures dateRange == if sel.Some? then sel else old(dateRange)
      ensures filterValue ==
        if sel.Some? && sel.value.from.Some? && sel.value.to.Some?
        then Some(Range(toIso(sel.value.from.value), toIso(sel.value.to.value)))
        else old(filterValue)
    {
      if sel.None? {
        return;
      }
      dateRange := sel;
      if sel.value.from.None? || sel.value.to.None? {
        return;
      }
      filterValue := Some(Range(toIso(sel.value.from.value), toIso(sel.value.to.value)));
    }

    /** "Cancella filtro" in the range editor (lines 313-316). */
    method ClearRange()
      requires EditorFor(filterType) == DateRangeEditor
      modifies this`filterValue, this`dateRange
      ensures filterValue == Some(Text(""))
      ensures dateRange == None
    {
      filterValue := Some(Text(""));
      dateRange := None;
    }
  }
}
