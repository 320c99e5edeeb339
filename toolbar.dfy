/**
  The table's toolbar (tst-table-toolbar.tsx, `TstTableToolBar`): the data
  that export and print use, the print snapshot, the column chooser with
  its show-all and hide-all actions, which controls appear for which
  props, and the search box with its debounced input.
 */
module Toolbar {
  import opened Wrappers
  import TableState
  import Debounce

  // ---------------------------------------------------------------------------
  // Export and print data (lines 139-175)
  // ---------------------------------------------------------------------------

  /** A plain object: its own keys and values in `Object.keys` order. */
  type Record<V> = seq<(string, V)>

  /** A row of the library's row model; `original` is the data row it came from. */
  datatype Row<V> = Row(original: Record<V>)

  /** `flatRows.map(row => row.original)`. */
  function Originals<V>(rows: seq<Row<V>>): (r: seq<Record<V>>)
    ensures |r| == |rows|
    ensures forall i :: 0 <= i < |rows| ==> r[i] == rows[i].original
  {
    seq(|rows|, i requires 0 <= i < |rows| => rows[i].original)
  }

  /** `props.csvData ?? table.getRowModel().flatRows.map(...)`: the caller's
      data whenever supplied, even an empty list; otherwise the originals of
      the row model's rows, in order. */
  function ExportData<V>(csvData: Option<seq<Record<V>>>, flatRows: seq<Row<V>>): (r: seq<Record<V>>)
    ensures csvData.Some? ==> r == csvData.value
    ensures csvData.None? ==> |r| == |flatRows| && forall i :: 0 <= i < |flatRows| ==> r[i] == flatRows[i].original
  {
    if csvData.Some? then csvData.value else Originals(flatRows)
  }

  /** What the CSV link receives (line 151): the extra test for an empty
      `csvData` picks what `ExportData` picks anyway. */
  function CsvLinkData<V>(csvData: Option<seq<Record<V>>>, flatRows: seq<Row<V>>): (r: seq<Record<V>>)
    ensures r == ExportData(csvData, flatRows)
  {
    if csvData.Some? && |csvData.value| == 0 then csvData.value else ExportData(csvData, flatRows)
  }

  // ---------------------------------------------------------------------------
  // Print cells (line 217)
  // ---------------------------------------------------------------------------

  predicate IsQuote(c: char) {
    c == '\'' || c == '"'
  }

  predicate NoQuotes(s: string) {
    forall i :: 0 <= i < |s| ==> !IsQuote(s[i])
  }

  /** `s.replace(/['"]+/g, "")`: taking out every run of quote characters
      takes out every quote character and nothing else. */
  function StripQuotes(s: string): (r: string)
    ensures NoQuotes(r)
    ensures NoQuotes(s) ==> r == s
    ensures multiset(r) == multiset(s)['\'' := 0]['"' := 0]
  {
    if |s| == 0 then ""
    else
      var rest := StripQuotes(s[1..]);
      assert s == [s[0]] + s[1..];
      assert multiset(s) == multiset{s[0]} + multiset(s[1..]);
      if IsQuote(s[0]) then rest else [s[0]] + rest
  }

  /** Stripping works piece by piece, so the characters kept stay in order. */
  lemma {:induction false} StripQuotesAppend(a: string, b: string)
    ensures StripQuotes(a + b) == StripQuotes(a) + StripQuotes(b)
  {
    if |a| == 0 {
      assert a + b == b;
    } else {
      assert (a + b)[0] == a[0] && (a + b)[1..] == a[1..] + b;
      StripQuotesAppend(a[1..], b);
    }
  }

  /** Stripping an already stripped string changes nothing. */
  lemma StripQuotesIdempotent(s: string)
    ensures StripQuotes(StripQuotes(s)) == StripQuotes(s)
  {
  }

  /** `JSON.stringify`, kept abstract: `None` where it gives `undefined`
      (for an undefined value or a function), on which `.replace` throws. */
  type Stringify<!V> = V -> Option<string>

  /** The printed cells of one row: its values in key order (line 213). */
  function PrintRow<V>(stringify: Stringify<V>, row: Record<V>): (r: Option<seq<string>>)
    ensures r.Some? <==> forall k :: 0 <= k < |row| ==> stringify(row[k].1).Some?
    ensures r.Some? ==> |r.value| == |row|
    ensures r.Some? ==> forall k :: 0 <= k < |row| ==> r.value[k] == StripQuotes(stringify(row[k].1).value)
  {
    if |row| == 0 then Some([])
    else
      match (stringify(row[0].1), PrintRow(stringify, row[1..]))
      case (Some(c), Some(rest)) => Some([StripQuotes(c)] + rest)
      case _ => None
  }

  /** The printed body: one row of cells per data row, in order. */
  function PrintBody<V>(stringify: Stringify<V>, data: seq<Record<V>>): (r: Option<seq<seq<string>>>)
    ensures r.Some? <==> forall i :: 0 <= i < |data| ==> PrintRow(stringify, data[i]).Some?
    ensures r.Some? ==> |r.value| == |data|
    ensures r.Some? ==> forall i :: 0 <= i < |data| ==> Some(r.value[i]) == PrintRow(stringify, data[i])
  {
    if |data| == 0 then Some([])
    else
      match (PrintRow(stringify, data[0]), PrintBody(stringify, data[1..]))
      case (Some(cells), Some(rest)) => Some([cells] + rest)
      case _ => None
  }

  datatype PrintTable = PrintTable(header: seq<string>, body: seq<seq<string>>)

  /** The hidden table that is printed (lines 196-227): the header is the
      keys of the first data row, each translated by `t` (none without
      data); each body row holds that row's values, stringified and
      stripped of quotes. `None`: rendering throws on an `undefined` cell. */
  function PrintSnapshot<V>(data: seq<Record<V>>, t: string -> string, stringify: Stringify<V>)
    : (p: Option<PrintTable>)
    ensures p.Some? <==> forall i, k :: 0 <= i < |data| && 0 <= k < |data[i]| ==> stringify(data[i][k].1).Some?
    ensures p.Some? && |data| == 0 ==> p.value.header == [] && p.value.body == []
    ensures p.Some? && |data| > 0 ==>
      |p.value.header| == |data[0]| && forall k :: 0 <= k < |data[0]| ==> p.value.header[k] == t(data[0][k].0)
    ensures p.Some? ==> |p.value.body| == |data|
    ensures p.Some? ==> forall i :: 0 <= i < |data| ==>
      && |p.value.body[i]| == |data[i]|
      && forall k :: 0 <= k < |data[i]| ==> p.value.body[i][k] == StripQuotes(stringify(data[i][k].1).value)
    ensures p.Some? ==> forall i, k :: 0 <= i < |data| && 0 <= k < |data[i]| ==> NoQuotes(p.value.body[i][k])
  {
    var header := if |data| == 0 then [] else seq(|data[0]|, k requires 0 <= k < |data[0]| => t(data[0][k].0));
    match PrintBody(stringify, data)
    case Some(body) => Some(PrintTable(header, body))
    case None => None
  }

  // ---------------------------------------------------------------------------
  // Column chooser and bulk visibility (lines 61-120)
  // ---------------------------------------------------------------------------

  /** What the toolbar reads of a column from `table.getAllColumns()`. */
  datatype ColumnInfo = ColumnInfo(id: string, hasAccessor: bool, canHide: bool)

  /** The columns the chooser lists (lines 75-81): those with an accessor
      that can be hidden, in the table's order. */
  function ChooserColumns(all: seq<ColumnInfo>): (r: seq<ColumnInfo>)
    ensures forall c :: c in r <==> c in all && c.hasAccessor && c.canHide
    ensures |r| <= |all|
  {
    if |all| == 0 then []
    else
      var rest := ChooserColumns(all[1..]);
      assert all == [all[0]] + all[1..];
      if all[0].hasAccessor && all[0].canHide then [all[0]] + rest else rest
  }

  /** The chooser keeps the table's column order: it works piece by piece. */
  lemma {:induction false} ChooserColumnsAppend(a: seq<ColumnInfo>, b: seq<ColumnInfo>)
    ensures ChooserColumns(a + b) == ChooserColumns(a) + ChooserColumns(b)
  {
    if |a| == 0 {
      assert a + b == b;
    } else {
      assert (a + b)[0] == a[0] && (a + b)[1..] == a[1..] + b;
      ChooserColumnsAppend(a[1..], b);
    }
  }

  /** `getIsVisible`: a column without an entry is visible. */
  function Visible(visibility: map<string, bool>, id: string): bool {
    if id in visibility then visibility[id] else true
  }

  /** The ids `toggleVisibility` can change: the library ignores the call on
      a column that cannot be hidden. */
  function HidableIds(columns: seq<ColumnInfo>): set<string> {
    set c | c in columns && c.canHide :: c.id
  }

  /** The entries show-all or hide-all writes over `columns`. */
  function BulkUpdate(columns: seq<ColumnInfo>, v: bool): (m: map<string, bool>)
    ensures m.Keys == HidableIds(columns)
    ensures forall id :: id in m ==> m[id] == v
  {
    map id | id in HidableIds(columns) :: v
  }

  /** After show-all (or hide-all) every hidable column of the table has
      that visibility, listed in the chooser or not; all others keep theirs. */
  lemma BulkUpdateEffect(visibility: map<string, bool>, columns: seq<ColumnInfo>, v: bool, c: ColumnInfo, id: string)
    ensures c in columns && c.canHide ==> Visible(visibility + BulkUpdate(columns, v), c.id) == v
    ensures id !in HidableIds(columns) ==> Visible(visibility + BulkUpdate(columns, v), id) == Visible(visibility, id)
  {
  }

  /** One more column adds its id to the bulk update exactly when it can hide. */
  lemma BulkUpdateStep(m: map<string, bool>, columns: seq<ColumnInfo>, i: nat, v: bool)
    requires i < |columns|
    ensures m + BulkUpdate(columns[..i + 1], v) ==
      if columns[i].canHide then (m + BulkUpdate(columns[..i], v))[columns[i].id := v]
      else m + BulkUpdate(columns[..i], v)
  {
    assert columns[..i + 1] == columns[..i] + [columns[i]];
    var ids := HidableIds(columns[..i + 1]);
    assert ids == HidableIds(columns[..i]) + (if columns[i].canHide then {columns[i].id} else {});
    var b, b' := BulkUpdate(columns[..i], v), BulkUpdate(columns[..i + 1], v);
    assert b' == if columns[i].canHide then b[columns[i].id := v] else b;
  }

  /** The library's column-visibility state, as the toolbar changes it. */
  class ColumnVisibility {
    var visibility: map<string, bool>

    constructor (visibility: map<string, bool>)
      ensures this.visibility == visibility
    {
      this.visibility := visibility;
    }

    /** `column.toggleVisibility(v)`: a chooser checkbox (line 89) or the
        header's "Hide". */
    method ToggleVisibility(c: ColumnInfo, v: bool)
      modifies this
      ensures visibility == if c.canHide then old(visibility)[c.id := v] else old(visibility)
    {
      if c.canHide {
        visibility := visibility[c.id := v];
      }
    }

    /** "Mostra tutto" (v = true) and "Nascondi tutto" (v = false): the
        `forEach` over every column of the table (lines 97-114). */
    method SetAll(columns: seq<ColumnInfo>, v: bool)
      modifies this
      ensures visibility == old(visibility) + BulkUpdate(columns, v)
    {
      for i := 0 to |columns|
        invariant visibility == old(visibility) + BulkUpdate(columns[..i], v)
      {
        BulkUpdateStep(old(visibility), columns, i, v);
        ToggleVisibility(columns[i], v);
      }
      assert columns[..|columns|] == columns;
    }
  }

  // ---------------------------------------------------------------------------
  // Which controls appear (lines 308-324)
  // ---------------------------------------------------------------------------

  /** The toolbar's props that decide its controls; a callback prop counts by
      whether it is given. */
  datatype ToolbarProps = ToolbarProps(
    viewSelector: Option<bool>,
    hasRefetch: bool,
    hasPrintFunction: bool,
    disablePrint: Option<bool>,
    disableExport: Option<bool>,
    disableViewSelector: Option<bool>,
    disableSearch: Option<bool>)

  datatype Control = Search | Refetch | Export | CustomPrint | BuiltInPrint | FilterToggle | ColumnChooser

  /** The position of each control in the toolbar. */
  function Rank(c: Control): nat {
    match c
    case Search => 0
    case Refetch => 1
    case Export => 2
    case CustomPrint => 3
    case BuiltInPrint => 4
    case FilterToggle => 5
    case ColumnChooser => 6
  }

  /** The condition under which each control renders. */
  predicate Shown(p: ToolbarProps, c: Control) {
    match c
    case Search => p.disableSearch != Some(true)
    case Refetch => p.hasRefetch
    case Export => p.disableExport != Some(true)
    case CustomPrint => p.hasPrintFunction
    case BuiltInPrint => !p.hasPrintFunction && p.disablePrint != Some(true)
    case FilterToggle => p.disableViewSelector != Some(true)
    case ColumnChooser => p.viewSelector != Some(false)
  }

  /** Every control, in toolbar order. */
  const ALL_CONTROLS: seq<Control> :=
    [Search, Refetch, Export, CustomPrint, BuiltInPrint, FilterToggle, ColumnChooser]

  predicate RankOrdered(s: seq<Control>) {
    forall i, j :: 0 <= i < j < |s| ==> Rank(s[i]) < Rank(s[j])
  }

  /** The controls of `s` whose condition holds, in the order of `s`. */
  function ShownOf(p: ToolbarProps, s: seq<Control>): (r: seq<Control>)
    ensures forall c :: c in r <==> c in s && Shown(p, c)
  {
    if |s| == 0 then []
    else
      var rest := ShownOf(p, s[1..]);
      assert s == [s[0]] + s[1..];
      if Shown(p, s[0]) then [s[0]] + rest else rest
  }

  /** Keeping some controls keeps them in rank order. */
  lemma {:induction false} ShownOfOrdered(p: ToolbarProps, s: seq<Control>)
    requires RankOrdered(s)
    ensures RankOrdered(ShownOf(p, s))
  {
    if |s| > 0 {
      var tail := s[1..];
      ShownOfOrdered(p, tail);
      var rest := ShownOf(p, tail);
      forall c | c in rest
        ensures Rank(s[0]) < Rank(c)
      {
        var j :| 0 <= j < |tail| && tail[j] == c;
        assert s[j + 1] == c;
      }
    }
  }

  /** The controls the toolbar renders, left to right (lines 313-323); a
      given print function replaces the built-in print whatever
      `disablePrint` says. */
  function Controls(p: ToolbarProps): (r: seq<Control>)
    ensures Search in r <==> p.disableSearch != Some(true)
    ensures Refetch in r <==> p.hasRefetch
    ensures Export in r <==> p.disableExport != Some(true)
    ensures CustomPrint in r <==> p.hasPrintFunction
    ensures BuiltInPrint in r <==> !p.hasPrintFunction && p.disablePrint != Some(true)
    ensures FilterToggle in r <==> p.disableViewSelector != Some(true)
    ensures ColumnChooser in r <==> p.viewSelector != Some(false)
    ensures !(CustomPrint in r && BuiltInPrint in r)
    ensures RankOrdered(r)
  {
    assert RankOrdered(ALL_CONTROLS);
    ShownOfOrdered(p, ALL_CONTROLS);
    ShownOf(p, ALL_CONTROLS)
  }

  // ---------------------------------------------------------------------------
  // Search (lines 251-292)
  // ---------------------------------------------------------------------------

  /** The search toggle and, while it is open, the debounced input bound to
      the table's global filter. */
  class SearchBar {
    var openSearch: bool
    var input: Debounce.DebouncedInput?<string>
    const table: TableState.TstTableState

    /** The input is mounted exactly while the search is open, and it was
        last rendered with the current global filter. */
    ghost predicate Valid()
      reads this, input, table
    {
      && (openSearch <==> input != null)
      && (input != null ==> input.Valid() && !input.disposed && input.prop == table.globalFilter)
    }

    constructor (table: TableState.TstTableState)
      ensures Valid()
      ensures !openSearch && this.table == table
    {
      openSearch := false;
      input := null;
      this.table := table;
    }

    /** The search button (line 277) flips `openSearch`; opening mounts the
        input on the global filter, closing unmounts and disposes it. */
    method ToggleSearch(now: int)
      requires Valid()
      requires input != null ==> input.clock <= now
      modifies this, input
      ensures Valid()
      ensures openSearch == !old(openSearch)
      ensures openSearch ==> fresh(input) && input.value == table.globalFilter
      ensures openSearch ==> input.clock == now && input.debounce == Debounce.DEFAULT_DEBOUNCE
      ensures openSearch ==> input.pending == Some(Debounce.Timeout(table.globalFilter, now + Debounce.DEFAULT_DEBOUNCE))
      ensures !openSearch ==> old(input).disposed && old(input).pending.None?
      ensures table.globalFilter == old(table.globalFilter)
    {
      if openSearch {
        input.Dispose();
        input := null;
      } else {
        input := new Debounce.DebouncedInput(table.globalFilter, Debounce.DEFAULT_DEBOUNCE, now);
      }
      openSearch := !openSearch;
    }

    /** A keystroke in the open search box. */
    method Type(v: string, now: int)
      requires Valid() && openSearch
      requires input.clock <= now
      modifies input
      ensures Valid()
      ensures input.value == v && input.clock == now
      ensures input.pending == if v != old(input.value)
        then Some(Debounce.Timeout(v, now + input.debounce))
        else old(input.pending)
      ensures table.globalFilter == old(table.globalFilter)
    {
      input.SetLocal(v, now);
    }

    /** The clear button (lines 266-268) sets the global filter to "", and
        the input is rendered again with it. When the global filter already
        was "", the prop does not change, so text typed but not yet
        committed stays in the box (and its timeout stays pending). */
    method Clear(now: int)
      requires Valid() && openSearch
      requires input.clock <= now
      modifies input, table`globalFilter
      ensures Valid()
      ensures table.globalFilter == ""
      ensures input.clock == now
      ensures input.value == if old(table.globalFilter) == "" then old(input.value) else ""
      ensures input.pending == if old(table.globalFilter) != "" && old(input.value) != ""
        then Some(Debounce.Timeout("", now + input.debounce))
        else old(input.pending)
    {
      table.SetGlobalFilter("");
      input.SetProp("", now);
    }

    /** Timers run at `now`: a committed value becomes the global filter
        (`setGlobalFilter(String(value))`, line 258). The render that follows
        passes it back as the prop, which equals the local value, so no new
        timeout starts. */
    method Tick(now: int) returns (committed: Option<string>)
      requires Valid()
      requires input != null ==> input.clock <= now
      modifies input, table`globalFilter
      ensures Valid()
      ensures committed.Some? <==> old(input) != null && old(input.pending).Some? && old(input.pending).value.deadline <= now
      ensures committed.Some? ==> committed.value == old(input.pending).value.value
      ensures committed.Some? ==> committed.value == input.value && input.pending.None?
      ensures input != null ==> input.clock == now && input.value == old(input.value)
      ensures input != null && committed.None? ==> input.pending == old(input.pending)
      ensures table.globalFilter == if committed.Some? then committed.value else old(table.globalFilter)
    {
      if input == null {
        return None;
      }
      committed := input.Tick(now);
      if committed.Some? {
        table.SetGlobalFilter(committed.value);
        input.SetProp(committed.value, now);
      }
    }
  }

  /** Opening the search at `t0`, typing `v` at `t1` and letting one quiet
      period pass makes `v` the global filter; one millisecond earlier,
      typed text that differs from the filter is not yet committed. */
  method SearchCommits(v: string, t0: int, t1: int) returns (early: Option<string>, filter: string)
    requires t0 <= t1
    ensures v != "" ==> early == None
    ensures filter == v
  {
    var table := new TableState.TstTableState();
    var bar := new SearchBar(table);
    bar.ToggleSearch(t0);
    bar.Type(v, t1);
    early := bar.Tick(t1 + Debounce.DEFAULT_DEBOUNCE - 1);
    var committed := bar.Tick(t1 + Debounce.DEFAULT_DEBOUNCE);
    filter := table.globalFilter;
  }
}
