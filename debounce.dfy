/**
  The debounced text box of the toolbar (tst-table-toolbar.tsx:331-363,
  `DebouncedInput`). It keeps a local copy of its `value` prop; each change
  of the local value cancels the pending `setTimeout` and schedules a new
  one `debounce` milliseconds later, whose callback hands the value to
  `onChange`. Time is a logical clock: every event carries its instant, and
  `Tick` is the moment the event loop runs the timers that are due.
 */
module Debounce {
  import opened Wrappers

  /** The default quiet period (line 334). */
  const DEFAULT_DEBOUNCE: nat := 500

  /** A scheduled timeout: the value its callback passes on, and when it is due. */
  datatype Timeout<T> = Timeout(value: T, deadline: int)

  class DebouncedInput<T(==)> {
    const debounce: nat
    /** The `value` prop of the latest render. */
    var prop: T
    /** The local state cell (line 341). */
    var value: T
    /** The one timeout the effect of lines 347-353 holds, if any. */
    var pending: Option<Timeout<T>>
    /** Unmounted: the effect's cleanup has run for the last time. */
    var disposed: bool
    /** The instant of the latest event. */
    var clock: int
    /** When the local value last changed, that is, when the effect last ran. */
    ghost var changedAt: int

    /** At most one timeout, always carrying the current local value and due
        one quiet period after its last change; none after disposal. */
    ghost predicate Valid()
      reads this
    {
      && changedAt <= clock
      && (disposed ==> pending.None?)
      && (pending.Some? ==> pending.value == Timeout(value, changedAt + debounce))
    }

    /** Mounting at `now`: the local value is the prop, and the effect runs
        once, so the initial value is itself committed unless typing intervenes. */
    constructor (initial: T, debounce: nat, now: int)
      ensures Valid()
      ensures this.debounce == debounce
      ensures prop == initial && value == initial
      ensures pending == Some(Timeout(initial, now + debounce))
      ensures !disposed && clock == now && changedAt == now
    {
      this.debounce := debounce;
      prop := initial;
      value := initial;
      pending := Some(Timeout(initial, now + debounce));
      disposed := false;
      clock := now;
      changedAt := now;
    }

    /** Replace the local value at `now`. A different value re-runs the
        effect: its cleanup clears the pending timeout and a new one is
        scheduled. An equal value leaves the state, so the effect does not run. */
    method Restart(v: T, now: int)
      requires Valid() && clock <= now && !disposed
      modifies this
      ensures Valid()
      ensures prop == old(prop) && !disposed && clock == now
      ensures if v != old(value)
        then value == v && pending == Some(Timeout(v, now + debounce)) && changedAt == now
        else value == old(value) && pending == old(pending) && changedAt == old(changedAt)
    {
      clock := now;
      if v != value {
        value := v;
        pending := Some(Timeout(v, now + debounce));
        changedAt := now;
      }
    }

    /** A keystroke: `setValue(e.target.value)` (line 360). An unmounted
        input receives none. */
    method SetLocal(v: T, now: int)
      requires Valid() && clock <= now
      modifies this
      ensures Valid()
      ensures prop == old(prop) && disposed == old(disposed) && clock == now
      ensures if !old(disposed) && v != old(value)
        then value == v && pending == Some(Timeout(v, now + debounce)) && changedAt == now
        else value == old(value) && pending == old(pending) && changedAt == old(changedAt)
    {
      if disposed {
        clock := now;
      } else {
        Restart(v, now);
      }
    }

    /** A render with `value` prop `v`. A changed prop runs the effect of
        lines 343-345, which copies it into the local value (and so restarts
        the timer when the two differ). */
    method SetProp(v: T, now: int)
      requires Valid() && clock <= now
      modifies this
      ensures Valid()
      ensures disposed == old(disposed) && clock == now
      ensures prop == if old(disposed) then old(prop) else v
      ensures if !old(disposed) && v != old(prop) && v != old(value)
        then value == v && pending == Some(Timeout(v, now + debounce)) && changedAt == now
        else value == old(value) && pending == old(pending) && changedAt == old(changedAt)
    {
      if disposed {
        clock := now;
      } else if v != prop {
        prop := v;
        Restart(v, now);
      } else {
        clock := now;
      }
    }

    /** The event loop at `now` runs the pending callback if it is due: it
        returns the value passed to `onChange`, if any. Only a timeout that
        survived a whole quiet period fires, and it carries the latest value. */
    method Tick(now: int) returns (committed: Option<T>)
      requires Valid() && clock <= now
      modifies this
      ensures Valid()
      ensures committed.Some? <==> old(pending).Some? && old(pending).value.deadline <= now
      ensures old(disposed) ==> committed.None?
      ensures committed.Some? ==> committed.value == value && changedAt + debounce <= now
      ensures pending == if committed.Some? then None else old(pending)
      ensures value == old(value) && prop == old(prop) && disposed == old(disposed)
      ensures changedAt == old(changedAt) && clock == now
    {
      clock := now;
      if pending.Some? && pending.value.deadline <= now {
        committed := Some(pending.value.value);
        pending := None;
      } else {
        committed := None;
      }
    }

    /** Unmounting: the cleanup clears the pending timeout (line 352). */
    method Dispose()
      requires Valid()
      modifies this
      ensures Valid()
      ensures disposed && pending.None?
      ensures value == old(value) && prop == old(prop) && clock == old(clock)
    {
      pending := None;
      disposed := true;
    }
  }

  /** Three different values typed one after another, each within the quiet
      period of the previous change: no tick before a keystroke commits
      anything, and one quiet period after the last keystroke only the last
      value is committed. */
  method CoalesceThree<T(==)>(initial: T, a: T, b: T, c: T, debounce: nat, t0: int, t1: int, t2: int, t3: int)
    returns (early: seq<Option<T>>, last: Option<T>)
    requires initial != a && a != b && b != c
    requires t0 <= t1 < t0 + debounce
    requires t1 <= t2 < t1 + debounce
    requires t2 <= t3 < t2 + debounce
    ensures early == [None, None, None]
    ensures last == Some(c)
  {
    var input := new DebouncedInput(initial, debounce, t0);
    var e1 := input.Tick(t1);
    input.SetLocal(a, t1);
    var e2 := input.Tick(t2);
    input.SetLocal(b, t2);
    var e3 := input.Tick(t3);
    input.SetLocal(c, t3);
    last := input.Tick(t3 + debounce);
    early := [e1, e2, e3];
  }

  /** After disposal nothing is ever committed, whatever is typed or rendered. */
  method NothingAfterDispose<T(==)>(initial: T, v: T, debounce: nat, t0: int, t1: int, t2: int)
    returns (committed: Option<T>)
    requires t0 <= t1 <= t2
    ensures committed == None
  {
    var input := new DebouncedInput(initial, debounce, t0);
    input.Dispose();
    input.SetLocal(v, t1);
    input.SetProp(v, t1);
    committed := input.Tick(t2);
  }
}
