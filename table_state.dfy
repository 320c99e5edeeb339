/**
  The state `TstTable` keeps for the table (tst-table.tsx:56-61): four React
  state cells, each replaced whole through its setter. The table library
  reads them as its controlled sorting, column-filter and global-filter
  state; `showFilter` is the table's own flag for the filter row.
 */
module TableState {
  import opened ColumnFilter

  /** One entry of the library's sorting state: a column and its direction. */
  datatype SortEntry = SortEntry(id: string, desc: bool)

  /** One entry of the library's column-filter state. */
  datatype ColumnFilterEntry = ColumnFilterEntry(id: string, value: FilterValue)

  class TstTableState {
    var sorting: seq<SortEntry>
    var showFilter: bool
    var globalFilter: string
    var columnFilters: seq<ColumnFilterEntry>

    /** The initial state: nothing sorted or filtered, filter row hidden. */
    constructor ()
      ensures sorting == [] && columnFilters == []
      ensures globalFilter == "" && !showFilter
    {
      sorting := [];
      showFilter := false;
      globalFilter := "";
      columnFilters := [];
    }

    /** `onSortingChange`: the library hands over the new sorting state. */
    method SetSorting(s: seq<SortEntry>)
      modifies this`sorting
      ensures sorting == s
    {
      sorting := s;
    }

    /** `setShowFilter`, passed to the toolbar and to every column header. */
    method SetShowFilter(show: bool)
      modifies this`showFilter
      ensures showFilter == show
    {
      showFilter := show;
    }

    /** `setGlobalFilter`, from the library and from the toolbar's search. */
    method SetGlobalFilter(value: string)
      modifies this`globalFilter
      ensures globalFilter == value
    {
      globalFilter := value;
    }

    /** `onColumnFiltersChange`: the library hands over the new filters. */
    method SetColumnFilters(f: seq<ColumnFilterEntry>)
      modifies this`columnFilters
      ensures columnFilters == f
    {
      columnFilters := f;
    }
  }
}
