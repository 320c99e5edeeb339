/**
  `TstTable` itself (tst-table.tsx): the footer with the pagination bar and
  the page-size menu, the body's empty-table rule, and how its props and its
  state reach the toolbar and the column headers. The table library's
  pagination is not modelled: the handlers hand their requests to it, and
  the page index, page count and the can-move flags are what it reported
  at the last render.
 */
module Table {
  import opened Wrappers
  import ColumnHeader
  import TableState
  import Toolbar

  // ---------------------------------------------------------------------------
  // Numbers as the page input shows and reads them
  // ---------------------------------------------------------------------------

  predicate IsDigit(c: char) {
    '0' <= c <= '9'
  }

  predicate AllDigits(s: string) {
    forall i :: 0 <= i < |s| ==> IsDigit(s[i])
  }

  /** A decimal numeral as JavaScript prints a non-negative integer: no
      leading zero, except for zero itself. */
  predicate Canonical(s: string) {
    |s| >= 1 && AllDigits(s) && (s[0] != '0' || |s| == 1)
  }

  function DigitValue(c: char): nat
    requires IsDigit(c)
  {
    (c as int - '0' as int) as nat
  }

  function DigitChar(d: nat): (c: char)
    requires d < 10
    ensures IsDigit(c) && DigitValue(c) == d
  {
    ('0' as int + d) as char
  }

  /** The value of a string of digits, read left to right. */
  function DigitsValue(s: string): nat
    requires AllDigits(s)
  {
    if |s| == 0 then 0
    else 10 * DigitsValue(s[..|s| - 1]) + DigitValue(s[|s| - 1])
  }

  /** String conversion of a non-negative integer, as in `pageIndex + 1` in
      the page input and in `" - " + pageCount`. */
  function Decimal(n: nat): (s: string)
    ensures Canonical(s)
  {
    if n < 10 then [DigitChar(n)]
    else Decimal(n / 10) + [DigitChar(n % 10)]
  }

  /** `Number(s)` for the strings a number input reports: the empty string
      is 0, a string of digits is its value, anything else is NaN (`None`). */
  function Number(s: string): (r: Option<nat>)
    ensures r.Some? <==> AllDigits(s)
    ensures s == "" ==> r == Some(0)
  {
    if AllDigits(s) then Some(DigitsValue(s)) else None
  }

  /** Reading back what `Decimal` prints gives the number printed. */
  lemma {:induction false} NumberOfDecimal(n: nat)
    ensures Number(Decimal(n)) == Some(n)
    decreases n
  {
    var s := Decimal(n);
    if n < 10 {
      assert s[..0] == [];
    } else {
      NumberOfDecimal(n / 10);
      assert s[..|s| - 1] == Decimal(n / 10);
      assert DigitsValue(s) == 10 * (n / 10) + DigitValue(s[|s| - 1]);
    }
  }

  lemma {:induction false} CanonicalPositive(s: string)
    requires Canonical(s) && s[0] != '0'
    ensures DigitsValue(s) >= 1
    decreases |s|
  {
    if |s| > 1 {
      var init := s[..|s| - 1];
      assert init[0] == s[0];
      CanonicalPositive(init);
    }
  }

  /** 2^53: every integer up to it is exactly a JavaScript number, so
      `Number` reads numerals up to it without rounding. */
  const EXACT_LIMIT: nat := 9_007_199_254_740_992

  /** Printing a canonical numeral's value gives the numeral back, as long
      as the value is an exact JavaScript number. */
  lemma {:induction false} DecimalOfNumber(s: string)
    requires Canonical(s) && DigitsValue(s) <= EXACT_LIMIT
    ensures Number(s).Some? && Decimal(Number(s).value) == s
    decreases |s|
  {
    var n := DigitsValue(s);
    if |s| == 1 {
      assert s[..|s| - 1] == [];
      assert DigitsValue(s[..|s| - 1]) == 0;
      assert n == DigitValue(s[0]);
      assert s == [DigitChar(n)];
    } else {
      var init := s[..|s| - 1];
      assert init[0] == s[0];
      CanonicalPositive(init);
      DecimalOfNumber(init);
      assert n / 10 == DigitsValue(init) && n % 10 == DigitValue(s[|s| - 1]);
      assert s == init + [s[|s| - 1]];
    }
  }

  // ---------------------------------------------------------------------------
  // Pagination bar (lines 80-132) and page-size menu (lines 134-158)
  // ---------------------------------------------------------------------------

  /** What the footer's handlers ask the table library to do. */
  datatype PageCall = PreviousPage | NextPage | SetPageIndex(index: int) | SetPageSize(size: int)

  /** The value of the page input: the 1-based page number (line 112). */
  function PageInputValue(pageIndex: nat): (s: string)
    ensures Canonical(s) && s[0] != '0'
    ensures Number(s) == Some(pageIndex + 1)
  {
    NumberOfDecimal(pageIndex + 1);
    Decimal(pageIndex + 1)
  }

  /** The page the input asks for: one less than the number entered (line 114). */
  function PageIndexFromInput(s: string): (r: Option<int>)
    ensures r.Some? <==> AllDigits(s)
    ensures r.Some? ==> r.value == Number(s).value - 1
    ensures s == "" ==> r == Some(-1)
  {
    match Number(s)
    case None => None
    case Some(n) => Some(n - 1)
  }

  /** The input shows the page it would ask for: reading its own value back
      requests the current page. */
  lemma InputRoundTrip(pageIndex: nat)
    ensures PageIndexFromInput(PageInputValue(pageIndex)) == Some(pageIndex)
  {
  }

  /** Entering any page number n >= 1 up to 2^53 asks for the non-negative
      index n - 1, for which the input would show n again as the browser
      normalises it. The library clamps an index past the last page, so the
      input then shows the last page instead. */
  lemma EnteredRoundTrip(s: string)
    requires Canonical(s) && s[0] != '0' && DigitsValue(s) <= EXACT_LIMIT
    ensures PageIndexFromInput(s).Some? && PageIndexFromInput(s).value >= 0
    ensures PageInputValue(PageIndexFromInput(s).value) == s
  {
    DecimalOfNumber(s);
    CanonicalPositive(s);
  }

  /** The label of the popover button, "page - pageCount" (lines 96-99). */
  function Indicator(pageIndex: nat, pageCount: nat): (s: string)
    ensures PageInputValue(pageIndex) <= s
    ensures Number(s[..|PageInputValue(pageIndex)|]) == Some(pageIndex + 1)
    ensures s[|PageInputValue(pageIndex)|..] == " - " + Decimal(pageCount)
  {
    var page := PageInputValue(pageIndex);
    var s := page + " - " + Decimal(pageCount);
    assert s[..|page|] == page && s[|page|..] == " - " + Decimal(pageCount);
    s
  }

  /** The items of the page-size menu, in order (lines 147-151). */
  const PAGE_SIZE_OPTIONS: seq<string> := ["10", "20", "30", "40", "50"]

  /** The menu offers exactly the sizes 10, 20, 30, 40 and 50, in that order. */
  lemma PageSizeOptions()
    ensures |PAGE_SIZE_OPTIONS| == 5
    ensures forall i :: 0 <= i < 5 ==> Number(PAGE_SIZE_OPTIONS[i]) == Some(10 * (i + 1))
  {
    forall i | 0 <= i < 5
      ensures Number(PAGE_SIZE_OPTIONS[i]) == Some(10 * (i + 1))
    {
      NumberOfDecimal(10 * (i + 1));
      assert Decimal(10 * (i + 1)) == PAGE_SIZE_OPTIONS[i];
    }
  }

  /** The footer as rendered once: what the library reported, and the
      requests the handlers have made since. */
  class Footer {
    const pageIndex: nat
    const pageCount: nat
    const canPreviousPage: bool
    const canNextPage: bool
    var requests: seq<PageCall>

    constructor (pageIndex: nat, pageCount: nat, canPreviousPage: bool, canNextPage: bool)
      ensures this.pageIndex == pageIndex && this.pageCount == pageCount
      ensures this.canPreviousPage == canPreviousPage && this.canNextPage == canNextPage
      ensures requests == []
    {
      this.pageIndex := pageIndex;
      this.pageCount := pageCount;
      this.canPreviousPage := canPreviousPage;
      this.canNextPage := canNextPage;
      requests := [];
    }

    /** The left chevron (lines 84-91): disabled exactly when the table
        cannot go back, so a click on it then does nothing. */
    method ClickPrevious()
      modifies this`requests
      ensures requests == old(requests) + if canPreviousPage then [PreviousPage] else []
    {
      if canPreviousPage {
        requests := requests + [PreviousPage];
      }
    }

    /** The right chevron (lines 119-128), disabled exactly when the table
        cannot go forward. */
    method ClickNext()
      modifies this`requests
      ensures requests == old(requests) + if canNextPage then [NextPage] else []
    {
      if canNextPage {
        requests := requests + [NextPage];
      }
    }

    /** A change in the page input (lines 113-115). A number input reports
        either "" or a numeral; "" asks for page index -1. */
    method EnterPage(s: string)
      requires AllDigits(s)
      modifies this`requests
      ensures requests == old(requests) + [SetPageIndex(Number(s).value - 1)]
      ensures s == PageInputValue(pageIndex) ==> requests == old(requests) + [SetPageIndex(pageIndex)]
    {
      var n: int := Number(s).value;
      requests := requests + [SetPageIndex(n - 1)];
    }

    /** Choosing a page size (lines 139-141): the menu reports one of its
        item values, and the library is asked for that size. */
    method ChoosePageSize(choice: string)
      requires choice in PAGE_SIZE_OPTIONS
      modifies this`requests
      ensures Number(choice).Some?
      ensures requests == old(requests) + [SetPageSize(Number(choice).value)]
      ensures Number(choice).value in {10, 20, 30, 40, 50}
    {
      PageSizeOptions();
      var size := Number(choice).value;
      requests := requests + [SetPageSize(size)];
    }
  }

  /** Which parts of the footer render (lines 237-240). */
  datatype FooterView = FooterView(pageSizeMenu: bool, paginationBar: bool)

  function FooterParts(pageSizeSelector: Option<bool>, pagination: Option<bool>): (v: FooterView)
    ensures v.pageSizeMenu <==> pageSizeSelector != Some(false)
    ensures v.paginationBar <==> pagination != Some(false)
    ensures pageSizeSelector.None? && pagination.None? ==> v.pageSizeMenu && v.paginationBar
  {
    FooterView(pageSizeSelector != Some(false), pagination != Some(false))
  }

  // ---------------------------------------------------------------------------
  // Body (lines 208-235)
  // ---------------------------------------------------------------------------

  /** The body: the rows of the row model, each as its visible cells, or a
      single "No results." cell across every column. */
  datatype BodyView = Rows(rows: seq<seq<string>>) | NoResults(colSpan: nat, text: string)

  function Body(rows: seq<seq<string>>, columnCount: nat): (b: BodyView)
    ensures b.NoResults? <==> |rows| == 0
    ensures b.NoResults? ==> b.colSpan == columnCount && b.text == "No results."
    ensures b.Rows? ==> b.rows == rows && |b.rows| > 0
  {
    if |rows| > 0 then Rows(rows) else NoResults(columnCount, "No results.")
  }

  // ---------------------------------------------------------------------------
  // Props and state wiring (lines 160-207)
  // ---------------------------------------------------------------------------

  /** The props of `TstTable` that reach the control layer (line 37-52);
      function-valued props are reduced to whether they are given. */
  datatype TableProps = TableProps(
    pageSize: Option<int>,
    pageSizeSelector: Option<bool>,
    pagination: Option<bool>,
    viewSelector: Option<bool>,
    hasRefetch: bool,
    hasPrintFunction: bool,
    disablePrint: Option<bool>,
    disableExport: Option<bool>,
    disableViewSelector: Option<bool>,
    disableSearch: Option<bool>)

  /** The toolbar's props (lines 165-180): `disableViewSelector` is passed as
      a bare attribute, so it is always true whatever the table was given;
      the filter toggle never shows, and every other control follows the
      table's own props. */
  function ToolbarPropsFor(p: TableProps): (tp: Toolbar.ToolbarProps)
    ensures tp.disableViewSelector == Some(true)
    ensures Toolbar.FilterToggle !in Toolbar.Controls(tp)
    ensures Toolbar.Search in Toolbar.Controls(tp) <==> p.disableSearch != Some(true)
    ensures Toolbar.Refetch in Toolbar.Controls(tp) <==> p.hasRefetch
    ensures Toolbar.Export in Toolbar.Controls(tp) <==> p.disableExport != Some(true)
    ensures Toolbar.CustomPrint in Toolbar.Controls(tp) <==> p.hasPrintFunction
    ensures Toolbar.BuiltInPrint in Toolbar.Controls(tp) <==> !p.hasPrintFunction && p.disablePrint != Some(true)
    ensures Toolbar.ColumnChooser in Toolbar.Controls(tp) <==> p.viewSelector != Some(false)
  {
    Toolbar.ToolbarProps(p.viewSelector, p.hasRefetch, p.hasPrintFunction, p.disablePrint,
                         p.disableExport, Some(true), p.disableSearch)
  }

  /** What a header is rendered from: its column's `enableColumnFilter` and
      sort state. */
  datatype HeaderColumn = HeaderColumn(enableColumnFilter: Option<bool>, sort: ColumnHeader.SortState)

  /** The header row (lines 183-206): every header is given the one
      `showFilter` flag of the table. */
  function HeaderRow(columns: seq<HeaderColumn>, showFilter: bool): (hs: seq<ColumnHeader.HeaderView>)
    ensures |hs| == |columns|
    ensures forall i :: 0 <= i < |hs| ==> (hs[i].TitleOnly? <==> columns[i].enableColumnFilter == Some(false))
    ensures forall i :: 0 <= i < |hs| && hs[i].Menu? ==> (hs[i].editorShown <==> showFilter)
  {
    seq(|columns|, i requires 0 <= i < |columns| =>
      ColumnHeader.Header(columns[i].enableColumnFilter, columns[i].sort, showFilter))
  }

  /** "Filtra" in the menu of header `k` flips the shared flag, so the filter
      editor of every header with a menu appears or disappears together. */
  method ToggleFilterFromHeader(state: TableState.TstTableState, columns: seq<HeaderColumn>, k: nat)
    returns (headers: seq<ColumnHeader.HeaderView>)
    requires k < |columns| && columns[k].enableColumnFilter != Some(false)
    modifies state`showFilter
    ensures state.showFilter == !old(state.showFilter)
    ensures headers == HeaderRow(columns, state.showFilter)
    ensures forall i :: 0 <= i < |headers| && headers[i].Menu? ==> headers[i].editorShown == !old(state.showFilter)
  {
    var before := HeaderRow(columns, state.showFilter);
    assert before[k].Menu?;
    var call := ColumnHeader.CallOf(ColumnHeader.ToggleFilter, state.showFilter);
    state.SetShowFilter(call.show);
    headers := HeaderRow(columns, state.showFilter);
  }
}
