/**
  The header of one column (tst-table-column.tsx:44-115,
  `ColumnHeaderComponent`): either the bare title, or the title with a sort
  icon and a menu of four actions, with the filter editor underneath while
  the table's filter row is shown.
 */
module ColumnHeader {
  import opened Wrappers

  /** `column.getIsSorted()`: false, "asc" or "desc". */
  datatype SortState = Unsorted | Ascending | Descending

  datatype SortIcon = ArrowDown | ArrowUp | ArrowUpDown

  /** The icon next to the title (lines 80-86). */
  function IconFor(s: SortState): (icon: SortIcon)
    ensures icon == ArrowDown <==> s == Descending
    ensures icon == ArrowUp <==> s == Ascending
    ensures icon == ArrowUpDown <==> s == Unsorted
  {
    match s
    case Descending => ArrowDown
    case Ascending => ArrowUp
    case Unsorted => ArrowUpDown
  }

  /** The menu items "Asc", "Desc", "Filtra" and "Hide". */
  datatype Action = SortAsc | SortDesc | ToggleFilter | Hide

  /** The call an action makes on the column or on the table. */
  datatype Call = ToggleSorting(desc: bool) | SetShowFilter(show: bool) | ToggleVisibility(visible: bool)

  /** What each menu item does (lines 91-107); `showFilter` is the shared
      filter-row flag the header was rendered with. */
  function CallOf(a: Action, showFilter: bool): (c: Call)
    ensures c.ToggleSorting? <==> a == SortAsc || a == SortDesc
    ensures c.ToggleSorting? ==> (c.desc <==> a == SortDesc)
    ensures c.SetShowFilter? <==> a == ToggleFilter
    ensures c.SetShowFilter? ==> c.show == !showFilter
    ensures c.ToggleVisibility? <==> a == Hide
    ensures c.ToggleVisibility? ==> !c.visible
  {
    match a
    case SortAsc => ToggleSorting(false)
    case SortDesc => ToggleSorting(true)
    case ToggleFilter => SetShowFilter(!showFilter)
    case Hide => ToggleVisibility(false)
  }

  /** What a header shows: the bare title, or the title with the sort icon,
      the action menu and, when `editorShown`, the column's filter editor. */
  datatype HeaderView = TitleOnly | Menu(icon: SortIcon, actions: seq<Action>, editorShown: bool)

  /** `enableColumnFilter === false` switches off sorting, filtering and
      hiding from the header (lines 53-65); otherwise lines 67-114. */
  function Header(enableColumnFilter: Option<bool>, sort: SortState, showFilter: bool): (h: HeaderView)
    ensures h.TitleOnly? <==> enableColumnFilter == Some(false)
    ensures h.Menu? ==> h.icon == IconFor(sort)
    ensures h.Menu? ==> h.actions == [SortAsc, SortDesc, ToggleFilter, Hide]
    ensures h.Menu? ==> (h.editorShown <==> showFilter)
  {
    if enableColumnFilter == Some(false) then TitleOnly
    else Menu(IconFor(sort), [SortAsc, SortDesc, ToggleFilter, Hide], showFilter)
  }
}
