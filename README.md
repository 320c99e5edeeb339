# TstTable filter and control layer in Dafny

This project models the control layer of the `TstTable` React component,
which is built on the TanStack table library. It covers three areas:

- **Column filters.** How each column gets its `filterFn` from its
  `filterType`, the three filter predicates the component installs
  (substring, same day, day window), the options of a select filter, which
  editor a column shows, and what each editor writes into the column's
  filter value.
- **Column headers.** The header's sort icon and its action menu ("Asc",
  "Desc", "Filtra", "Hide"), and the one `showFilter` flag that all headers
  share.
- **Toolbar and table.** The data that export and print use, the print
  snapshot and its quote stripping, the column chooser with show-all and
  hide-all, which controls appear for which props, the search box and its
  debounced input, the table's initial state, the pagination bar and its
  1-based page numbers, the page-size menu, the empty-body rule, and how
  `TstTable` passes its props to the toolbar.

State the source changes in place is a Dafny class:

- the four `useState` cells of `TstTable` (`TableState.TstTableState`);
- a mounted filter editor, with its state cells, its column's `filterFn`
  and its filter value (`ColumnEditor.FilterTypes`);
- the debounced input and its one pending timeout
  (`Debounce.DebouncedInput`);
- the column-visibility map that show-all and hide-all update one column
  at a time (`Toolbar.ColumnVisibility`);
- the search bar (`Toolbar.SearchBar`);
- the footer's requests to the library (`Table.Footer`).

Expressions are functions, and lemmas relate them.

Some models are abstract:

- **Time.** A logical clock: every event carries its instant.
- **Date parsing and midnight.** JavaScript `Date` parsing and
  `setHours(0, 0, 0, 0)` are the two fields of a `Calendar` value. The
  lemmas about day windows assume only `IsDayFloor`: the day start of an
  instant is at most the instant, and every instant from that midnight up
  to the instant has the same day start. Daylight-saving days of 23 or 25
  hours satisfy it too. A fixed-offset time zone is proved to satisfy the
  stronger `IsUniformDayFloor`, which adds that no instant is a whole day
  or more after its midnight.
- **Library-owned values.** `JSON.stringify`, `toISOString`, the
  translation function `t`, faceted rows, the row model, `pageCount` and
  the can-move flags are inputs.

Modules: `Wrappers` (Option), `ColumnFilter`, `ColumnHeader`,
`ColumnEditor`, `TableState`, `Debounce`, `Toolbar` and `Table`.

## Model

All paths are under `src/components/tst-table/`.

| member | source | states |
|---|---|---|
| ColumnFilter.IncludesFrom | src/components/tst-table/tst-table-column.tsx:153 | `includes` from a position is true iff the needle occurs at some index at or after it |
| ColumnFilter.FixedOffsetIsDayFloor | src/components/tst-table/tst-table-column.tsx:128-134 | midnight in a fixed-offset zone is a day floor with days shorter than 24 hours: at most the instant, less than a day before it, and the same for every instant of that day |
| ColumnFilter.DayStartMonotone | src/components/tst-table/tst-table-column.tsx:144-145 | for any day floor, a later instant never has an earlier midnight |
| ColumnFilter.DayStartIdempotent | src/components/tst-table/tst-table-column.tsx:144-145 | for any day floor, the midnight of a midnight is itself |
| ColumnFilter.SubstringMatch | src/components/tst-table/tst-table-column.tsx:150-154 | the untyped predicate holds iff the cell contains the filter's string form (case-sensitive); an empty filter matches every cell |
| ColumnFilter.SameDayMatch | src/components/tst-table/tst-table-column.tsx:127-135 | the "date" predicate holds iff both dates parse and fall on the same local day; an unparseable side never matches (NaN) |
| ColumnFilter.DayWindowMatch | src/components/tst-table/tst-table-column.tsx:142-147 | the "dateRange" predicate holds iff all three dates parse and the cell's full timestamp lies between the two ends' midnights, both inclusive |
| ColumnFilter.FromDayIncluded | src/components/tst-table/tst-table-column.tsx:142-147 | every instant of the `from` day is in the window when `to` is a later day |
| ColumnFilter.ToDayAfterMidnightExcluded | src/components/tst-table/tst-table-column.tsx:145-146 | any instant of the `to` day after its midnight is outside the window |
| ColumnFilter.WholeDaysSingleDay | src/components/tst-table/tst-table-column.tsx:142-147 | with the corrected window, which compares days, a one-day range [d, d] is exactly the "date" predicate on d |
| ColumnFilter.WholeDaysExtendsWindow | src/components/tst-table/tst-table-column.tsx:142-147 | the corrected window matches everything the installed window matches; the two differ exactly on instants of the `to` day after its midnight |
| ColumnFilter.SingleDayRange | src/components/tst-table/tst-table-column.tsx:127-147 | a one-day range [d, d] matches exactly the instant of d's midnight, and any match also matches the "date" predicate on d |
| ColumnFilter.Resolve | src/components/tst-table/tst-table-column.tsx:126-155 | a non-"auto" `filterFn` is never replaced; "auto" gets the same-day, the day-window or the substring predicate exactly for types "date", "dateRange" or no type; "select" and "input" keep it |
| ColumnFilter.InstalledPredicate | src/components/tst-table/tst-table-column.tsx:126-155 | with the default "auto", a predicate is installed exactly for "date", "dateRange" and untyped columns; it is then the same-day, day-window or substring test on the cell |
| ColumnFilter.ResolveIdempotent | src/components/tst-table/tst-table-column.tsx:126-155 | resolving again after the first render changes nothing |
| ColumnFilter.Distinct | src/components/tst-table/tst-table-column.tsx:165 | `[...new Set(s)]` has the same members as `s`, no duplicates and no more elements |
| ColumnFilter.DistinctFirstSeen | src/components/tst-table/tst-table-column.tsx:165 | the distinct values come in the order their first occurrences have in `s` |
| ColumnFilter.SelectOptions | src/components/tst-table/tst-table-column.tsx:157-169 | given options are used unchanged, even an empty list; otherwise a "select" column lists each faceted value once, in first-seen order, with label equal to value; other columns get none |
| ColumnFilter.EditorFor | src/components/tst-table/tst-table-column.tsx:326-337 | "select", "date" and "dateRange" get their own editors; every other type, and no type, gets the text input |
| ColumnFilter.EditorAgreesWithPredicate | src/components/tst-table/tst-table-column.tsx:326-337 | the editor shown and the predicate installed agree: date editors go with day matching, and the text editor filters by substring exactly on an untyped column |
| ColumnHeader.IconFor | src/components/tst-table/tst-table-column.tsx:80-86 | arrow down iff sorted descending, arrow up iff ascending, up-down iff unsorted |
| ColumnHeader.CallOf | src/components/tst-table/tst-table-column.tsx:91-107 | "Asc"/"Desc" set the sort direction asc/desc; "Filtra" sets the shared flag to the negation of the rendered one; "Hide" hides the column |
| ColumnHeader.Header | src/components/tst-table/tst-table-column.tsx:53-114 | `enableColumnFilter === false` shows only the title; otherwise the icon of the sort state, the four actions in order, and the editor iff the filter row is shown |
| ColumnEditor.FilterTypes.constructor | src/components/tst-table/tst-table-column.tsx:117-155 | mounting resets the four editor cells and resolves the column's `filterFn` |
| ColumnEditor.FilterTypes.Render | src/components/tst-table/tst-table-column.tsx:126-155 | a later render's resolution leaves `filterFn` as it is |
| ColumnEditor.FilterTypes.OnInput | src/components/tst-table/tst-table-column.tsx:176-180 | typing sets the filter value to the text and stores it in the input cell |
| ColumnEditor.FilterTypes.OnSelect | src/components/tst-table/tst-table-column.tsx:197-200 | choosing an option sets the filter value and the selected cell to it |
| ColumnEditor.FilterTypes.ClearSelect | src/components/tst-table/tst-table-column.tsx:220-223 | "Cancella" sets the filter value and the selection to "" |
| ColumnEditor.FilterTypes.OnDate | src/components/tst-table/tst-table-column.tsx:254-257 | a picked day is stored and its ISO string becomes the filter value; deselecting stores no day, makes `toISOString` throw, and leaves the filter value |
| ColumnEditor.FilterTypes.ClearDate | src/components/tst-table/tst-table-column.tsx:263-266 | "Cancella filtro" sets the filter value to "" and clears the day |
| ColumnEditor.FilterTypes.OnRange | src/components/tst-table/tst-table-column.tsx:298-306 | an empty selection changes nothing; any other selection is stored; the filter value becomes the pair of ISO strings only when both ends are set |
| ColumnEditor.FilterTypes.ClearRange | src/components/tst-table/tst-table-column.tsx:313-316 | "Cancella filtro" sets the filter value to "" and clears the range |
| TableState.TstTableState.constructor | src/components/tst-table/tst-table.tsx:56-61 | the initial state has no sorting and no column filters, the global filter is "" and the filter row is hidden |
| TableState.TstTableState.SetSorting | src/components/tst-table/tst-table.tsx:67 | the sorting cell becomes the library's new state; nothing else changes |
| TableState.TstTableState.SetShowFilter | src/components/tst-table/tst-table.tsx:57 | the filter-row flag becomes the given value; nothing else changes |
| TableState.TstTableState.SetGlobalFilter | src/components/tst-table/tst-table.tsx:72 | the global filter becomes the given string; nothing else changes |
| TableState.TstTableState.SetColumnFilters | src/components/tst-table/tst-table.tsx:71 | the column filters become the library's new state; nothing else changes |
| Debounce.DebouncedInput.constructor | src/components/tst-table/tst-table-toolbar.tsx:341-353 | mounting copies the prop into the local value and schedules one timeout for it, one quiet period later |
| Debounce.DebouncedInput.Restart | src/components/tst-table/tst-table-toolbar.tsx:347-353 | a changed local value replaces the pending timeout with one for the new value, due one quiet period later; an equal value changes nothing |
| Debounce.DebouncedInput.SetLocal | src/components/tst-table/tst-table-toolbar.tsx:360 | a keystroke restarts the timer when it changes the value; an unmounted input is unaffected |
| Debounce.DebouncedInput.SetProp | src/components/tst-table/tst-table-toolbar.tsx:343-345 | a changed prop is copied into the local value, restarting the timer when the two differ; an unchanged prop does nothing |
| Debounce.DebouncedInput.Tick | src/components/tst-table/tst-table-toolbar.tsx:348-350 | a value is committed iff the pending timeout is due; it is the current local value, unchanged for a whole quiet period; nothing is committed after unmounting |
| Debounce.DebouncedInput.Dispose | src/components/tst-table/tst-table-toolbar.tsx:352 | unmounting clears the pending timeout |
| Debounce.CoalesceThree | src/components/tst-table/tst-table-toolbar.tsx:341-360 | three keystrokes, each within the quiet period of the last, commit nothing until one quiet period after the last, and then only the last value |
| Debounce.NothingAfterDispose | src/components/tst-table/tst-table-toolbar.tsx:347-353 | after unmounting, no keystroke or render leads to a commit |
| Toolbar.Originals | src/components/tst-table/tst-table-toolbar.tsx:142-144 | one data row per row of the row model, in order, each the row's `original` |
| Toolbar.ExportData | src/components/tst-table/tst-table-toolbar.tsx:140-144 | supplied `csvData` is used whenever present, even empty; otherwise the originals of the row model's rows, in order (with pagination installed, the rows of the current page) |
| Toolbar.CsvLinkData | src/components/tst-table/tst-table-toolbar.tsx:151 | the CSV link's extra empty-list test gives the same data as the export selection |
| Toolbar.StripQuotes | src/components/tst-table/tst-table-toolbar.tsx:217 | removing runs of `'` and `"` leaves no quote, keeps every other character with its count, and changes nothing in a quote-free string |
| Toolbar.StripQuotesAppend | src/components/tst-table/tst-table-toolbar.tsx:217 | stripping distributes over concatenation, so the characters kept stay in order |
| Toolbar.StripQuotesIdempotent | src/components/tst-table/tst-table-toolbar.tsx:217 | stripping twice is stripping once |
| Toolbar.PrintRow | src/components/tst-table/tst-table-toolbar.tsx:213-217 | a printed row has one stripped cell per value, in key order; it fails iff some value stringifies to `undefined` |
| Toolbar.PrintBody | src/components/tst-table/tst-table-toolbar.tsx:209-225 | one printed row per data row, in order; it fails iff some row fails |
| Toolbar.PrintSnapshot | src/components/tst-table/tst-table-toolbar.tsx:196-227 | the header is the first row's keys through `t`, or empty without data; each body cell is its value stringified with quotes removed; rendering fails iff some value stringifies to `undefined` |
| Toolbar.ChooserColumns | src/components/tst-table/tst-table-toolbar.tsx:75-81 | the chooser lists exactly the columns that have an accessor and can be hidden |
| Toolbar.ChooserColumnsAppend | src/components/tst-table/tst-table-toolbar.tsx:75-81 | the chooser filter distributes over concatenation, so it keeps the table's column order |
| Toolbar.BulkUpdate | src/components/tst-table/tst-table-toolbar.tsx:97-114 | show-all or hide-all writes the chosen visibility for exactly the hidable columns |
| Toolbar.BulkUpdateEffect | src/components/tst-table/tst-table-toolbar.tsx:97-114 | afterwards every hidable column has that visibility, listed in the chooser or not, and every other column keeps its own |
| Toolbar.BulkUpdateStep | src/components/tst-table/tst-table-toolbar.tsx:99-101 | one more column of the `forEach` overwrites its own entry exactly when it can hide |
| Toolbar.ColumnVisibility.constructor | src/components/tst-table/tst-table-toolbar.tsx:88-114 | the library's column-visibility map, as the chooser finds it, is held unchanged |
| Toolbar.ColumnVisibility.ToggleVisibility | src/components/tst-table/tst-table-toolbar.tsx:88-89 | a checkbox sets its column's visibility; a column that cannot hide is left unchanged |
| Toolbar.ColumnVisibility.SetAll | src/components/tst-table/tst-table-toolbar.tsx:97-114 | the `forEach` over all columns leaves the state equal to the old one overwritten by the bulk update |
| Toolbar.ShownOf | src/components/tst-table/tst-table-toolbar.tsx:313-323 | keeps exactly the controls whose condition holds |
| Toolbar.ShownOfOrdered | src/components/tst-table/tst-table-toolbar.tsx:313-323 | the controls kept stay in toolbar order |
| Toolbar.Controls | src/components/tst-table/tst-table-toolbar.tsx:313-323 | each control appears iff its prop condition holds; a print function replaces the built-in print; the controls come in toolbar order |
| Toolbar.SearchBar.constructor | src/components/tst-table/tst-table-toolbar.tsx:59 | the search starts closed, with no input mounted |
| Toolbar.SearchBar.ToggleSearch | src/components/tst-table/tst-table-toolbar.tsx:254-277 | opening mounts a fresh input on the current global filter, with the default 500 ms period, its clock at now and one pending timeout; closing disposes the input; the global filter is unchanged |
| Toolbar.SearchBar.Type | src/components/tst-table/tst-table-toolbar.tsx:255-261 | a keystroke sets the box's value and restarts the timer iff the value changed, otherwise the pending timeout stays; the global filter is unchanged |
| Toolbar.SearchBar.Clear | src/components/tst-table/tst-table-toolbar.tsx:266-268 | the X button sets the global filter to ""; the box is emptied only if the global filter was not already "", and a timeout for "" starts iff the box held text; otherwise uncommitted text and its timeout stay |
| Toolbar.SearchBar.Tick | src/components/tst-table/tst-table-toolbar.tsx:253-257 | a value is committed iff the search is open and its pending timeout is due; the committed value is the timeout's, and it becomes the global filter; otherwise the global filter and the timeout are unchanged |
| Toolbar.SearchCommits | src/components/tst-table/tst-table-toolbar.tsx:251-292 | opening the search, typing v and waiting one quiet period makes v the global filter; one millisecond earlier a non-empty v is not yet committed |
| Table.Decimal | src/components/tst-table/tst-table.tsx:96-99 | an integer's string form is a canonical numeral: digits only, no leading zero |
| Table.Number | src/components/tst-table/tst-table.tsx:114 | `Number` is defined exactly on digit strings, and `Number("")` is 0 |
| Table.NumberOfDecimal | src/components/tst-table/tst-table.tsx:112-114 | reading back a printed number gives the number |
| Table.DecimalOfNumber | src/components/tst-table/tst-table.tsx:112-114 | printing the value of a canonical numeral up to 2^53 gives the numeral back |
| Table.PageInputValue | src/components/tst-table/tst-table.tsx:112 | the page input shows the 1-based page number, as a numeral that reads back as `pageIndex + 1` |
| Table.PageIndexFromInput | src/components/tst-table/tst-table.tsx:114 | an entered number n asks for index n - 1; an emptied input asks for -1 |
| Table.InputRoundTrip | src/components/tst-table/tst-table.tsx:112-114 | reading the input's own value back asks for the current page index |
| Table.EnteredRoundTrip | src/components/tst-table/tst-table.tsx:112-114 | entering any page number n with 1 <= n <= 2^53 asks for the non-negative index n - 1, for which the input would show n again |
| Table.Indicator | src/components/tst-table/tst-table.tsx:96-99 | the button reads "page - pageCount": its first part is the page input's value, so it reads back as `pageIndex + 1` |
| Table.PageSizeOptions | src/components/tst-table/tst-table.tsx:147-151 | the menu offers exactly the numbers 10, 20, 30, 40 and 50, in that order |
| Table.Footer.constructor | src/components/tst-table/tst-table.tsx:80-132 | a rendered footer holds what the library reported and has made no request yet |
| Table.Footer.ClickPrevious | src/components/tst-table/tst-table.tsx:84-91 | the left chevron asks for the previous page iff the table can go back; it is disabled otherwise |
| Table.Footer.ClickNext | src/components/tst-table/tst-table.tsx:119-128 | the right chevron asks for the next page iff the table can go forward; it is disabled otherwise |
| Table.Footer.EnterPage | src/components/tst-table/tst-table.tsx:113-115 | entering a number asks for that number minus one; entering the shown value asks for the current page |
| Table.Footer.ChoosePageSize | src/components/tst-table/tst-table.tsx:139-141 | choosing a menu item asks for its number, which is one of 10, 20, 30, 40, 50 |
| Table.FooterParts | src/components/tst-table/tst-table.tsx:237-240 | the page-size menu shows unless `pageSizeSelector === false`, and the pagination bar unless `pagination === false` |
| Table.Body | src/components/tst-table/tst-table.tsx:209-234 | the body is the rows iff there are any; otherwise it is one "No results." cell spanning every column |
| Table.ToolbarPropsFor | src/components/tst-table/tst-table.tsx:165-180 | the toolbar always gets `disableViewSelector` true, so its filter toggle never shows, and every other control follows the table's props |
| Table.HeaderRow | src/components/tst-table/tst-table.tsx:183-206 | one header per column, each rendered with the table's one `showFilter` flag |
| Table.ToggleFilterFromHeader | src/components/tst-table/tst-table.tsx:199-200 | "Filtra" in any header flips the shared flag, so the filter editors of all headers with a menu appear or disappear together |

## Left out

- **TanStack library internals.** Sorted, filtered, faceted and paginated
  row models are inputs, not computed. So are `pageCount`,
  `getCanPreviousPage`/`getCanNextPage` and page-index clamping, and the
  default "auto" filter and the global filter's own matching.
  `Table.Footer` records the page requests but does not apply them.
- **Sort cycling.** The header's "Asc" and "Desc" call
  `toggleSorting(false/true)`. These set a direction in the library; the
  none/asc/desc cycle and the single-sort rule are library behaviour.
- **Visibility guard.** `Toolbar.ColumnVisibility.ToggleVisibility`
  applies the library's rule that a column that cannot be hidden ignores
  the call. The toolbar itself does not test `getCanHide` for show-all
  and hide-all.
- **CSV and printing.** CSV formatting and the download (`react-csv`) are
  not modelled. Neither are the print dialog (`react-to-print`) and the
  custom print function. Only the data handed to them and the printed
  table's contents are modelled.
- **Translation, date formatting and tooltips.** `t` is a parameter of the
  print snapshot. Elsewhere the labels are the source's own Italian
  strings. `date-fns` formatting of the picked dates and the tooltips are
  not modelled.
- **JavaScript Date.** Parsing and `setHours` on local time are abstract
  (`ColumnFilter.Calendar`). Only a fixed-offset zone is given as an
  instance. No daylight-saving calendar is constructed, but the lemmas
  assume only `IsDayFloor`, which such a calendar satisfies.
- **Timers.** `setTimeout` and `clearTimeout` are a logical clock with one
  pending timeout. The `debounce` prop is kept, but the toolbar always
  uses the default 500.
- **Cells.** Cells are their string form, as the source's `as string`
  casts assume. Numeric, null and undefined cells, and `toString` of other
  values, are not modelled.
- Table.Number: models `Number` only on the strings a number input can
  report as whole page numbers: "" and digit strings. Signs, decimals,
  exponents and whitespace are NaN here. Values are exact integers, while
  JavaScript rounds numerals above 2^53 to the nearest double.
- Table.PageIndexFromInput: gives `None` for "-2", "1.5" or "1e1", where
  the source asks for index -3, 0.5 or 9. Above 2^53 it does not round as
  JavaScript does.
- Table.Footer.EnterPage: accepts only "" and digit strings, not the
  negative, decimal or exponent numerals a number input can also report.
  The index it asks for is exact, not rounded to a double above 2^53.
- Table.DecimalOfNumber: holds in the source only up to 2^53, so it is
  stated only there. Above that `Number` rounds.
- Table.EnteredRoundTrip: stated only for page numbers up to 2^53, for the
  same reason. It also takes the whole numeral as one change event. Because
  `Pagination` is a component defined inside `TstTable`'s render, each page
  request re-renders the table and may remount the popover closed, so a
  number typed key by key would ask for one page per key. React's
  reconciliation is not modelled.
- ColumnFilter.SelectOptions: the faceted values are an input. `TstTable`
  passes no `getFacetedRowModel`; which rows the library then supplies (all
  rows, or the rows passing the other filters) is library behaviour and is
  not modelled.
- Table.Decimal: exact for every integer. JavaScript prints integers from
  10^21 up in exponent form; page numbers and counts never get there.
- **Markup.** Class names, layout, icons other than the sort icon,
  `customComponents` and `autoFocus` are not modelled.
- **Unused and inert inputs.** The `pageSize` prop of `TstTable` is never
  read. The text editor's X button has no click handler. The
  `sorrtingFunction` prop of the header is unused.
- **Row actions.** The row-action menu,
  `src/components/tst-table/tst-table-menuaction.tsx`, is not part of this
  model.
- **Filter-toggle button.** The toolbar's own filter toggle (lines 294-306
  of the toolbar file) is modelled only as a control that `Toolbar.Controls`
  can list. `TstTable` never renders it.
- **Dropped options.** The select editor's `filterOptions` list is
  rendered as given. Items without a `value` field are not represented,
  because `SelectOption` always has one.

## Findings

| source | as written | input that shows it | evidently intended | confidence | as-written member | corrected member |
|---|---|---|---|---|---|---|
| src/components/tst-table/tst-table-column.tsx:145-146 | the `to` end of the "dateRange" predicate is the midnight that opens the `to` day, and the cell's full timestamp is compared with it | a range from d to d, and a cell at noon on d: it does not match, though the "date" predicate on d matches it | the whole `to` day is included, as the date picker's range suggests: a cell matches when its day lies between the two days (`ColumnFilter.WholeDaysMatch`) | medium, not executed | ColumnFilter.SingleDayRange | ColumnFilter.WholeDaysExtendsWindow |

The model's `Resolve` installs the predicate as written (`DayWindow`), since
that is what the source runs. `ColumnFilter.WholeDaysMatch` is the corrected
predicate. `ColumnFilter.WholeDaysSingleDay` proves that it turns [d, d]
into the "date" predicate on d.
