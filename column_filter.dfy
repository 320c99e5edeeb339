/**
  The filter layer of one table column (tst-table-column.tsx, `FilterTypes`):
  which predicate a column installs as its `filterFn` for its declared
  `filterType`, what that predicate says about a cell and a filter value,
  how the options of a `select` filter come from the faceted rows, and
  which editor the column shows.
 */
module ColumnFilter {
  import opened Wrappers

  /** A point in time as `Date.getTime()` gives it: milliseconds. */
  type Millis = int

  const DAY_MILLIS: int := 86_400_000

  // ---------------------------------------------------------------------------
  // Filter values
  // ---------------------------------------------------------------------------

  /** What `column.setFilterValue` stores: a string, or the two-element array
      of ISO strings the date-range editor sets. */
  datatype FilterValue = Text(text: string) | Range(from: string, to: string)

  /** `String(v)`: an array converts to its elements joined by a comma. */
  function FilterText(v: FilterValue): string {
    match v
    case Text(s) => s
    case Range(a, b) => a + "," + b
  }

  /** `v[i]`: an array element, or the i-th character of a string; `None`
      is `undefined` (an index past the end). */
  function FilterElement(v: FilterValue, i: nat): Option<string> {
    match v
    case Range(a, b) => if i == 0 then Some(a) else if i == 1 then Some(b) else None
    case Text(s) => if i < |s| then Some([s[i]]) else None
  }

  // ---------------------------------------------------------------------------
  // Substring search (String.prototype.includes)
  // ---------------------------------------------------------------------------

  /** `t` occurs in `s` starting at position `i`. */
  predicate OccursAt(s: string, t: string, i: nat) {
    i + |t| <= |s| && s[i..i + |t|] == t
  }

  /** `t` is a contiguous, case-sensitive piece of `s`. */
  ghost predicate HasSubstring(s: string, t: string) {
    exists i: nat :: OccursAt(s, t, i)
  }

  /** `s.includes(t, from)` for `from <= |s|` (JavaScript clamps a larger
      `from` to `|s|`): look for `t` at `from`, `from + 1`, ... */
  function IncludesFrom(s: string, t: string, from: nat): (r: bool)
    ensures r <==> exists i: nat :: from <= i && OccursAt(s, t, i)
    decreases |s| - from
  {
    if from + |t| > |s| then false
    else if s[from..from + |t|] == t then assert OccursAt(s, t, from); true
    else
      var rest := IncludesFrom(s, t, from + 1);
      assert forall i: nat :: from <= i && OccursAt(s, t, i) ==> i == from || from + 1 <= i;
      rest
  }

  // ---------------------------------------------------------------------------
  // Dates
  // ---------------------------------------------------------------------------

  /** The two JavaScript date operations the predicates use, kept abstract:
      `parse(s)` is `new Date(s).getTime()`, `None` for an Invalid Date (NaN);
      `dayStart(t)` is `setHours(0, 0, 0, 0)`, the local midnight opening the
      day of `t`. */
  datatype Calendar = Calendar(parse: string -> Option<Millis>, dayStart: Millis -> Millis)

  /** What every local-midnight function satisfies, daylight-saving days of
      23 or 25 hours included: it never moves an instant forward, and every
      instant between a midnight and `t` lies on the day of `t`. The lemmas
      about the predicates need no more than this. */
  ghost predicate IsDayFloor(dayStart: Millis -> Millis) {
    && (forall t :: dayStart(t) <= t)
    && (forall t, u :: dayStart(t) <= u <= t ==> dayStart(u) == dayStart(t))
  }

  /** A day floor whose days all last less than 24 hours: no instant is a
      whole day or more after its midnight. */
  ghost predicate IsUniformDayFloor(dayStart: Millis -> Millis) {
    && IsDayFloor(dayStart)
    && (forall t :: t - dayStart(t) < DAY_MILLIS)
  }

  /** Local midnight in a zone that is `offset` milliseconds ahead of UTC
      without daylight saving: Dafny's `%` is Euclidean, so this floors. */
  function FixedOffsetDayStart(offset: int): Millis -> Millis {
    t => t - (t + offset) % DAY_MILLIS
  }

  lemma FixedOffsetIsDayFloor(offset: int)
    ensures IsUniformDayFloor(FixedOffsetDayStart(offset))
  {
    var f := FixedOffsetDayStart(offset);
    forall t, u | f(t) <= u <= t
      ensures f(u) == f(t)
    {
      var q := (t + offset) / DAY_MILLIS;
      assert t + offset == q * DAY_MILLIS + (t + offset) % DAY_MILLIS;
      assert f(t) + offset == q * DAY_MILLIS;
      SameQuotient(u + offset, q);
    }
  }

  /** Division by the day length is determined by the bracketing multiples. */
  lemma SameQuotient(x: int, q: int)
    requires q * DAY_MILLIS <= x < q * DAY_MILLIS + DAY_MILLIS
    ensures x % DAY_MILLIS == x - q * DAY_MILLIS
  {
    assert x / DAY_MILLIS == q;
  }

  /** A consequence of `IsDayFloor`: the day start is monotone. */
  lemma DayStartMonotone(dayStart: Millis -> Millis, a: Millis, b: Millis)
    requires IsDayFloor(dayStart)
    requires a <= b
    ensures dayStart(a) <= dayStart(b)
  {
  }

  /** A consequence of `IsDayFloor`: a midnight is its own day start. */
  lemma DayStartIdempotent(dayStart: Millis -> Millis, t: Millis)
    requires IsDayFloor(dayStart)
    ensures dayStart(dayStart(t)) == dayStart(t)
  {
    assert dayStart(t) <= dayStart(t) <= t;
  }

  /** `new Date(v[i])` parsed; `new Date(undefined)` is an Invalid Date. */
  function ParseElement(cal: Calendar, v: FilterValue, i: nat): Option<Millis> {
    match FilterElement(v, i)
    case None => None
    case Some(s) => cal.parse(s)
  }

  // ---------------------------------------------------------------------------
  // The installed predicates (lines 126-155)
  // ---------------------------------------------------------------------------

  /** The predicates `FilterTypes` can install on a column. */
  datatype Strategy = Substring | SameDay | DayWindow

  /** No filter type (lines 150-154): the cell's string form contains the
      filter value, case-sensitively; an empty filter value matches every row. */
  function SubstringMatch(cell: string, v: FilterValue): (r: bool)
    ensures r <==> HasSubstring(cell, FilterText(v))
    ensures FilterText(v) == "" ==> r
  {
    assert OccursAt(cell, "", 0);
    IncludesFrom(cell, FilterText(v), 0)
  }

  /** Filter type "date" (lines 127-135): cell and filter value fall on the
      same local day. An unparseable side is NaN, and NaN equals nothing. */
  function SameDayMatch(cal: Calendar, cell: string, v: FilterValue): (r: bool)
    ensures r ==> cal.parse(cell).Some? && cal.parse(FilterText(v)).Some?
    ensures cal.parse(cell).Some? && cal.parse(FilterText(v)).Some? ==>
      (r <==> cal.dayStart(cal.parse(cell).value) == cal.dayStart(cal.parse(FilterText(v)).value))
  {
    match (cal.parse(cell), cal.parse(FilterText(v)))
    case (Some(t), Some(f)) => cal.dayStart(t) == cal.dayStart(f)
    case _ => false
  }

  /** Filter type "dateRange" (lines 142-147): the cell's full timestamp lies
      between the midnights of the two ends, both inclusive. Any Invalid Date
      makes a comparison with NaN, which is false. */
  function DayWindowMatch(cal: Calendar, cell: string, v: FilterValue): (r: bool)
    ensures r ==> cal.parse(cell).Some? && ParseElement(cal, v, 0).Some? && ParseElement(cal, v, 1).Some?
    ensures cal.parse(cell).Some? && ParseElement(cal, v, 0).Some? && ParseElement(cal, v, 1).Some? ==>
      (r <==> cal.dayStart(ParseElement(cal, v, 0).value) <= cal.parse(cell).value <= cal.dayStart(ParseElement(cal, v, 1).value))
  {
    match (cal.parse(cell), ParseElement(cal, v, 0), ParseElement(cal, v, 1))
    case (Some(t), Some(from), Some(to)) => cal.dayStart(from) <= t && t <= cal.dayStart(to)
    case _ => false
  }

  /** The installed predicate applied to a row's cell and the filter value. */
  function Matches(s: Strategy, cal: Calendar, cell: string, v: FilterValue): bool {
    match s
    case Substring => SubstringMatch(cell, v)
    case SameDay => SameDayMatch(cal, cell, v)
    case DayWindow => DayWindowMatch(cal, cell, v)
  }

  /** Every instant of the `from` day, up to the `to` midnight, is in the window. */
  lemma FromDayIncluded(cal: Calendar, cell: string, a: string, b: string)
    requires IsDayFloor(cal.dayStart)
    requires cal.parse(cell).Some? && cal.parse(a).Some? && cal.parse(b).Some?
    requires cal.dayStart(cal.parse(cell).value) == cal.dayStart(cal.parse(a).value)
    requires cal.dayStart(cal.parse(a).value) < cal.dayStart(cal.parse(b).value)
    ensures DayWindowMatch(cal, cell, Range(a, b))
  {
    var t, f, to := cal.parse(cell).value, cal.parse(a).value, cal.parse(b).value;
    if t > cal.dayStart(to) {
      DayStartMonotone(cal.dayStart, cal.dayStart(to), t);
      DayStartIdempotent(cal.dayStart, to);
    }
  }

  /** The `to` day counts only at its midnight: any later instant is outside. */
  lemma ToDayAfterMidnightExcluded(cal: Calendar, cell: string, a: string, b: string)
    requires cal.parse(cell).Some? && cal.parse(b).Some?
    requires cal.parse(cell).value > cal.dayStart(cal.parse(b).value)
    ensures !DayWindowMatch(cal, cell, Range(a, b))
  {
  }

  /** A one-day range [d, d] matches only the instant of d's midnight, whereas
      the "date" predicate on d matches the whole day. */
  lemma {:induction false} SingleDayRange(cal: Calendar, cell: string, d: string)
    requires IsDayFloor(cal.dayStart)
    ensures DayWindowMatch(cal, cell, Range(d, d)) <==>
      cal.parse(d).Some? && cal.parse(cell) == Some(cal.dayStart(cal.parse(d).value))
    ensures DayWindowMatch(cal, cell, Range(d, d)) ==> SameDayMatch(cal, cell, Text(d))
  {
    if cal.parse(d).Some? && cal.parse(cell) == Some(cal.dayStart(cal.parse(d).value)) {
      DayStartIdempotent(cal.dayStart, cal.parse(d).value);
    }
  }

  /** The window that takes in the whole `to` day: a cell matches when its
      day lies between the two ends' days. */
  function WholeDaysMatch(cal: Calendar, cell: string, v: FilterValue): (r: bool)
    ensures r ==> cal.parse(cell).Some? && ParseElement(cal, v, 0).Some? && ParseElement(cal, v, 1).Some?
  {
    match (cal.parse(cell), ParseElement(cal, v, 0), ParseElement(cal, v, 1))
    case (Some(t), Some(from), Some(to)) =>
      cal.dayStart(from) <= cal.dayStart(t) && cal.dayStart(t) <= cal.dayStart(to)
    case _ => false
  }

  /** With whole days, a one-day range [d, d] is the "date" predicate on d. */
  lemma WholeDaysSingleDay(cal: Calendar, cell: string, d: string)
    ensures WholeDaysMatch(cal, cell, Range(d, d)) <==> SameDayMatch(cal, cell, Text(d))
  {
  }

  /** The whole-days window keeps everything the installed window matches,
      and the two differ exactly on the instants of the `to` day after its
      midnight. */
  lemma {:induction false} WholeDaysExtendsWindow(cal: Calendar, cell: string, v: FilterValue)
    requires IsDayFloor(cal.dayStart)
    ensures DayWindowMatch(cal, cell, v) ==> WholeDaysMatch(cal, cell, v)
    ensures WholeDaysMatch(cal, cell, v) && !DayWindowMatch(cal, cell, v) ==>
      && cal.parse(cell).value > cal.dayStart(ParseElement(cal, v, 1).value)
      && cal.dayStart(cal.parse(cell).value) == cal.dayStart(ParseElement(cal, v, 1).value)
  {
    match (cal.parse(cell), ParseElement(cal, v, 0), ParseElement(cal, v, 1))
    case (Some(t), Some(from), Some(to)) =>
      DayStartIdempotent(cal.dayStart, from);
      DayStartIdempotent(cal.dayStart, to);
      if cal.dayStart(from) <= t {
        DayStartMonotone(cal.dayStart, cal.dayStart(from), t);
      }
      if t <= cal.dayStart(to) {
        DayStartMonotone(cal.dayStart, t, cal.dayStart(to));
      }
    case _ =>
  }

  // ---------------------------------------------------------------------------
  // Resolution of columnDef.filterFn (lines 126, 138-141, 150)
  // ---------------------------------------------------------------------------

  /** `columnDef.filterFn`: the library default "auto", one of the predicates
      above once installed, or whatever else the column definition supplies. */
  datatype FilterFn = Auto | Install(strategy: Strategy) | Supplied(name: string)

  /** `!filterType`: the type is absent or the empty string. */
  predicate Untyped(filterType: Option<string>) {
    filterType == None || filterType == Some("")
  }

  /** The filterFn a column holds after `FilterTypes` renders once. */
  function Resolve(filterType: Option<string>, fn: FilterFn): (r: FilterFn)
    ensures fn != Auto ==> r == fn
    ensures filterType == Some("select") || filterType == Some("input") ==> r == fn
    ensures r.Install? ==> fn == r || fn == Auto
    ensures fn == Auto ==>
      && (r == Install(SameDay) <==> filterType == Some("date"))
      && (r == Install(DayWindow) <==> filterType == Some("dateRange"))
      && (r == Install(Substring) <==> Untyped(filterType))
      && (r == Auto <==> !Untyped(filterType) && filterType != Some("date") && filterType != Some("dateRange"))
  {
    if fn != Auto then fn
    else if filterType == Some("date") then Install(SameDay)
    else if filterType == Some("dateRange") then Install(DayWindow)
    else if Untyped(filterType) then Install(Substring)
    else fn
  }

  /** Re-rendering changes nothing: the first install is final. */
  lemma ResolveIdempotent(filterType: Option<string>, fn: FilterFn)
    ensures Resolve(filterType, Resolve(filterType, fn)) == Resolve(filterType, fn)
  {
  }

  /** What a column with the default "auto" filter tests once it has
      rendered: the strategy installed for its type, which the editor's
      filter value then meets. */
  lemma InstalledPredicate(filterType: Option<string>, cal: Calendar, cell: string, v: FilterValue)
    ensures Resolve(filterType, Auto).Install? <==>
      filterType == Some("date") || filterType == Some("dateRange") || Untyped(filterType)
    ensures filterType == Some("date") ==>
      (Matches(Resolve(filterType, Auto).strategy, cal, cell, v) <==> SameDayMatch(cal, cell, v))
    ensures filterType == Some("dateRange") ==>
      (Matches(Resolve(filterType, Auto).strategy, cal, cell, v) <==> DayWindowMatch(cal, cell, v))
    ensures Untyped(filterType) ==>
      (Matches(Resolve(filterType, Auto).strategy, cal, cell, v) <==> HasSubstring(cell, FilterText(v)))
  {
  }

  // ---------------------------------------------------------------------------
  // Select options (lines 120, 157-169)
  // ---------------------------------------------------------------------------

  predicate NoDuplicates<T(==)>(s: seq<T>) {
    forall i, j :: 0 <= i < j < |s| ==> s[i] != s[j]
  }

  /** Wherever `r[j]` occurs in `s`, every earlier `r[i]` has already occurred. */
  ghost predicate FirstSeenOrder<T>(s: seq<T>, r: seq<T>) {
    forall i, j, k :: 0 <= i < j < |r| && 0 <= k < |s| && s[k] == r[j] ==> r[i] in s[..k]
  }

  /** `[...new Set(s)]`: a Set keeps its first insertion of each value. */
  function Distinct<T(==,!new)>(s: seq<T>): (r: seq<T>)
    ensures forall x :: x in r <==> x in s
    ensures NoDuplicates(r)
    ensures |r| <= |s|
  {
    if |s| == 0 then []
    else
      var d := Distinct(s[..|s| - 1]);
      assert s == s[..|s| - 1] + [s[|s| - 1]];
      if s[|s| - 1] in d then d else d + [s[|s| - 1]]
  }

  lemma {:induction false} DistinctFirstSeen<T(!new)>(s: seq<T>)
    ensures FirstSeenOrder(s, Distinct(s))
  {
    if |s| > 0 {
      var p, x := s[..|s| - 1], s[|s| - 1];
      var d := Distinct(p);
      var r := Distinct(s);
      DistinctFirstSeen(p);
      assert s == p + [x];
      forall i, j, k | 0 <= i < j < |r| && 0 <= k < |s| && s[k] == r[j]
        ensures r[i] in s[..k]
      {
        if j < |d| {
          if k < |p| {
            assert s[..k] == p[..k];
          } else {
            assert r[j] == x && x in p;
            var k' :| 0 <= k' < |p| && p[k'] == x;
            assert r[i] in p[..k'];
            assert p[..k'] <= s[..k];
          }
        } else {
          assert r[j] == x && x !in p;
          assert k == |p|;
          assert r[i] in d;
          assert s[..k] == p;
        }
      }
    }
  }

  datatype SelectOption = SelectOption(value: string, labelText: string)

  /** The options a `select` column offers. Given `filterOptions` are used
      unchanged (an empty list too); otherwise a select column derives them
      from the values of the faceted rows; other columns have none. */
  function SelectOptions(filterType: Option<string>, given: Option<seq<SelectOption>>, faceted: seq<string>)
    : (r: Option<seq<SelectOption>>)
    ensures given.Some? ==> r == given
    ensures given.None? ==> (r.Some? <==> filterType == Some("select"))
    ensures given.None? && r.Some? ==>
      && (forall o :: o in r.value ==> o.labelText == o.value && o.value in faceted)
      && (forall x :: x in faceted ==> SelectOption(x, x) in r.value)
      && NoDuplicates(r.value)
      && |r.value| == |Distinct(faceted)|
      && (forall i :: 0 <= i < |r.value| ==> r.value[i].value == Distinct(faceted)[i])
  {
    if given.Some? then given
    else if filterType == Some("select") then
      var unique := Distinct(faceted);
      var options := seq(|unique|, i requires 0 <= i < |unique| => SelectOption(unique[i], unique[i]));
      assert forall x :: x in faceted ==> SelectOption(x, x) in options by {
        forall x | x in faceted ensures SelectOption(x, x) in options {
          var i :| 0 <= i < |unique| && unique[i] == x;
          assert options[i] == SelectOption(x, x);
        }
      }
      Some(options)
    else None
  }

  // ---------------------------------------------------------------------------
  // Editor dispatch (lines 326-337)
  // ---------------------------------------------------------------------------

  datatype Editor = SelectEditor | InputEditor | DateEditor | DateRangeEditor

  function EditorFor(filterType: Option<string>): (e: Editor)
    ensures e == SelectEditor <==> filterType == Some("select")
    ensures e == DateEditor <==> filterType == Some("date")
    ensures e == DateRangeEditor <==> filterType == Some("dateRange")
    ensures e == InputEditor <==> filterType !in {Some("select"), Some("date"), Some("dateRange")}
  {
    match filterType
    case Some("select") => SelectEditor
    case Some("input") => InputEditor
    case Some("date") => DateEditor
    case Some("dateRange") => DateRangeEditor
    case _ => InputEditor
  }

  /** The editor and the installed predicate agree: a date editor filters by
      day, a range editor by window; a text editor filters by substring only
      on an untyped column, while type "input" keeps the library's default. */
  lemma EditorAgreesWithPredicate(filterType: Option<string>)
    ensures Resolve(filterType, Auto) == Install(SameDay) <==> EditorFor(filterType) == DateEditor
    ensures Resolve(filterType, Auto) == Install(DayWindow) <==> EditorFor(filterType) == DateRangeEditor
    ensures EditorFor(filterType) == InputEditor ==>
      (Resolve(filterType, Auto) == Install(Substring) <==> Untyped(filterType))
    ensures EditorFor(filterType) == SelectEditor ==> Resolve(filterType, Auto) == Auto
  {
  }
}
