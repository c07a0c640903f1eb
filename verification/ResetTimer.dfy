/** The reset timer of one core: the row the scheduler and the two handlers share. Instants are
    seconds; intervals are minutes, at least one. */
module ResetTimer {
  import opened Wrappers

  datatype Row = Row(enabled: bool, interval: nat, last: Option<int>, next: Option<int>)

  /** A row is created disabled, with ten minutes. */
  const NEW_ROW := Row(false, 10, None, None)

  function Ahead(from: int, interval: nat): int {
    from + 60 * interval
  }

  // ---------- the three writers of a row ----------

  /** The update handler; none when it answers 400. Without an interval it clears the next reset,
      whatever it did to the switch. */
  function Updated(r: Row, now: int, enabled: Option<bool>, interval: Option<int>): Option<Row> {
    var on := if enabled.Some? then enabled.value else r.enabled;
    match interval
    case None => Some(r.(enabled := on, next := None))
    case Some(i) =>
      if i < 1 then None
      else if !on then Some(r.(enabled := on, interval := i))
      else
        var due := if r.last.Some? && Ahead(r.last.value, i) > now then Ahead(r.last.value, i) else Ahead(now, i);
        Some(r.(enabled := on, interval := i, next := Some(due)))
  }

  function ManuallyReset(r: Row, now: int): Row {
    r.(last := Some(now), next := if r.enabled && r.interval > 0 then Some(Ahead(now, r.interval)) else r.next)
  }

  /** Whether the scheduler, having read the row as `seen`, resets the core. */
  predicate Due(seen: Row, now: int) {
    seen.enabled && seen.next.Some? && now >= seen.next.value
  }

  /** The scheduler writes the two instants it computed from what it read; the rest of the row keeps
      what others wrote meanwhile. */
  function AutoReset(r: Row, seen: Row, now: int): Row {
    r.(last := Some(now), next := Some(Ahead(now, seen.interval)))
  }

  class ResetConfig {
    var enabled: bool
    var interval: nat
    var last: Option<int>
    var next: Option<int>

    ghost function Now(): Row
      reads this
    {
      Row(enabled, interval, last, next)
    }

    constructor ()
      ensures Now() == NEW_ROW
    {
      enabled, interval, last, next := false, 10, None, None;
    }

    method Update(now: int, enabled': Option<bool>, interval': Option<int>) returns (ok: bool)
      modifies this
      ensures ok == Updated(old(Now()), now, enabled', interval').Some?
      ensures Now() == if ok then Updated(old(Now()), now, enabled', interval').value else old(Now())
    {
      if interval'.Some? && interval'.value < 1 {
        return false;
      }
      if enabled'.Some? {
        enabled := enabled'.value;
      }
      if interval'.Some? {
        interval := interval'.value;
        if enabled && interval > 0 {
          if last.Some? {
            var calculated := last.value + 60 * interval;
            next := if calculated > now then Some(calculated) else Some(now + 60 * interval);
          } else {
            next := Some(now + 60 * interval);
          }
        }
      } else {
        next := None;
      }
      ok := true;
    }

    method ManualReset(now: int)
      modifies this
      ensures Now() == ManuallyReset(old(Now()), now)
    {
      last := Some(now);
      if enabled && interval > 0 {
        next := Some(now + 60 * interval);
      }
    }

    /** One row's turn in the scheduler's loop, with the row as the loop's query read it. */
    method Visit(seen: Row, now: int) returns (reset: bool)
      modifies this
      ensures reset == Due(seen, now)
      ensures Now() == if reset then AutoReset(old(Now()), seen, now) else old(Now())
    {
      if !seen.enabled || seen.next == None {
        return false;
      }
      if now >= seen.next.value {
        last := Some(now);
        next := Some(now + 60 * seen.interval);
        return true;
      }
      reset := false;
    }
  }

  // ---------- every run, each writer atomic ----------

  datatype Event =
    | Tick(at: int)
    | Manual(at: int)
    | Update(at: int, enabled: Option<bool>, interval: Option<int>)

  /** The row, and the instants of the automatic resets so far. */
  datatype History = History(row: Row, autos: seq<int>)

  function After(h: History, e: Event): History {
    match e
    case Tick(at) => if Due(h.row, at) then History(AutoReset(h.row, h.row, at), h.autos + [at]) else h
    case Manual(at) => h.(row := ManuallyReset(h.row, at))
    case Update(at, enabled, interval) =>
      match Updated(h.row, at, enabled, interval)
      case None => h
      case Some(r) => h.(row := r)
  }

  function AfterAll(h: History, events: seq<Event>): History {
    if events == [] then h else After(AfterAll(h, events[..|events| - 1]), events[|events| - 1])
  }

  const BEGINNING := History(NEW_ROW, [])

  predicate Monotone(events: seq<Event>) {
    forall j, k | 0 <= j < k < |events| :: events[j].at <= events[k].at
  }

  predicate Spaced(r: Row) {
    r.enabled && r.next.Some? && r.last.Some? ==> r.next.value >= Ahead(r.last.value, r.interval)
  }

  /** The last reset is no later than `now`, and no automatic reset is later than the last reset. */
  predicate Dated(h: History, now: int) {
    && (h.row.last.Some? ==> h.row.last.value <= now)
    && (h.autos != [] ==> h.row.last.Some? && h.autos[|h.autos| - 1] <= h.row.last.value)
  }

  lemma StepSpaced(h: History, e: Event, now: int)
    requires Spaced(h.row) && h.row.interval >= 1 && Dated(h, now) && now <= e.at
    ensures Spaced(After(h, e).row) && After(h, e).row.interval >= 1 && Dated(After(h, e), e.at)
  {
  }

  lemma {:induction false} RunSpaced(events: seq<Event>)
    requires Monotone(events)
    ensures var h := AfterAll(BEGINNING, events);
            && Spaced(h.row) && h.row.interval >= 1
            && (forall now | events == [] || events[|events| - 1].at <= now :: Dated(h, now))
    decreases |events|
  {
    if events != [] {
      var n := |events| - 1;
      RunSpaced(events[..n]);
      assert n > 0 ==> events[..n][n - 1].at <= events[n].at;
      StepSpaced(AfterAll(BEGINNING, events[..n]), events[n], events[n].at);
    }
  }

  /** In every run an automatic reset comes at least the current interval after any reset before it. */
  lemma AutoResetsKeepTheInterval(events: seq<Event>, at: int)
    requires Monotone(events + [Tick(at)])
    ensures var r := AfterAll(BEGINNING, events).row;
            Due(r, at) ==> (r.last.Some? ==> at >= Ahead(r.last.value, r.interval))
  {
    assert forall k | 0 <= k < |events| :: (events + [Tick(at)])[k] == events[k];
    RunSpaced(events);
  }

  /** No event of the run sets an interval other than `interval`. */
  predicate Fixed(events: seq<Event>, interval: nat) {
    forall k | 0 <= k < |events| && events[k].Update? && events[k].interval.Some? ::
      events[k].interval.value == interval
  }

  predicate Apart(autos: seq<int>, gap: int) {
    forall k | 0 <= k < |autos| - 1 :: autos[k + 1] >= autos[k] + gap
  }

  lemma StepApart(h: History, e: Event, now: int)
    requires Spaced(h.row) && h.row.interval >= 1 && Dated(h, now) && now <= e.at && Apart(h.autos, 60 * h.row.interval)
    requires e.Update? && e.interval.Some? ==> e.interval.value == h.row.interval
    ensures After(h, e).row.interval == h.row.interval && Apart(After(h, e).autos, 60 * h.row.interval)
  {
  }

  lemma {:induction false} FixedRunApart(h: History, events: seq<Event>, now: int)
    requires Spaced(h.row) && h.row.interval >= 1 && Dated(h, now) && Apart(h.autos, 60 * h.row.interval)
    requires Monotone(events) && (events != [] ==> now <= events[0].at) && Fixed(events, h.row.interval)
    ensures var a := AfterAll(h, events); var end := if events == [] then now else events[|events| - 1].at;
            Spaced(a.row) && a.row.interval == h.row.interval && Dated(a, end) && Apart(a.autos, 60 * h.row.interval)
    decreases |events|
  {
    if events != [] {
      var n := |events| - 1;
      FixedRunApart(h, events[..n], now);
      var a := AfterAll(h, events[..n]);
      var before := if n == 0 then now else events[n - 1].at;
      StepSpaced(a, events[n], before);
      StepApart(a, events[n], before);
    }
  }

  lemma {:induction false} ApartSpans(autos: seq<int>, gap: nat, j: nat, k: nat)
    requires Apart(autos, gap) && j <= k < |autos|
    ensures autos[k] - autos[j] >= (k - j) * gap
    decreases k - j
  {
    if j < k {
      ApartSpans(autos, gap, j, k - 1);
      assert (k - j) * gap == (k - 1 - j) * gap + gap;
    }
  }

  /** At a fixed interval, a window of `span` seconds holds at most span / interval + 1 automatic resets:
      the `j`-th to the `k`-th fit into it only if they are that few. */
  lemma WindowBound(h: History, events: seq<Event>, now: int, j: nat, k: nat, span: nat)
    requires Spaced(h.row) && h.row.interval >= 1 && Dated(h, now) && h.autos == []
    requires Monotone(events) && (events != [] ==> now <= events[0].at) && Fixed(events, h.row.interval)
    requires j <= k < |AfterAll(h, events).autos|
    requires AfterAll(h, events).autos[k] - AfterAll(h, events).autos[j] <= span
    ensures k - j + 1 <= span / (60 * h.row.interval) + 1
  {
    var gap := 60 * h.row.interval;
    FixedRunApart(h, events, now);
    ApartSpans(AfterAll(h, events).autos, gap, j, k);
    QuotientBound(k - j, gap, span);
  }

  lemma QuotientBound(m: nat, gap: nat, span: nat)
    requires gap > 0 && m * gap <= span
    ensures m <= span / gap
  {
    var q := span / gap;
    assert span < (q + 1) * gap;
    assert (m - q - 1) * gap < 0;
  }

  // ---------- resets do happen, and on time ----------

  predicate AllTicks(events: seq<Event>) {
    forall k | 0 <= k < |events| :: events[k].Tick?
  }

  /** Where the row waits for `due`, ticks before that instant change nothing and the first one from
      then on resets. */
  lemma {:induction false} WaitsUntil(h: History, ticks: seq<Event>, due: int, u: int)
    requires h.row.enabled && h.row.next == Some(due) && AllTicks(ticks)
    requires forall k | 0 <= k < |ticks| :: ticks[k].at < due
    ensures AfterAll(h, ticks) == h
    ensures After(h, Tick(u)).autos == if u >= due then h.autos + [u] else h.autos
    ensures u >= due ==> After(h, Tick(u)).row.last == Some(u)
    decreases |ticks|
  {
    if ticks != [] {
      var n := |ticks| - 1;
      assert forall k | 0 <= k < n :: ticks[..n][k] == ticks[k];
      WaitsUntil(h, ticks[..n], due, u);
      assert ticks[n].Tick? && ticks[n].at < due;
    }
  }

  /** A disabled timer, or one without a next reset, lets every tick pass. */
  lemma {:induction false} NeverFires(h: History, ticks: seq<Event>)
    requires (!h.row.enabled || h.row.next == None) && AllTicks(ticks)
    ensures AfterAll(h, ticks) == h
    decreases |ticks|
  {
    if ticks != [] {
      var n := |ticks| - 1;
      assert forall k | 0 <= k < n :: ticks[..n][k] == ticks[k];
      NeverFires(h, ticks[..n]);
      assert ticks[n].Tick?;
    }
  }

  /** The reset after a reset. A manual reset at `t` of an enabled row, or an automatic one: with no
      handler in between, ticks that come too early change nothing, and a tick at `u` resets exactly
      when the interval has passed since `t`. */
  lemma FiresAfterReset(h: History, e: Event, ticks: seq<Event>, u: int)
    requires h.row.enabled && h.row.interval >= 1 && AllTicks(ticks)
    requires e.Manual? || (e.Tick? && h.row.next.Some? && e.at >= h.row.next.value)
    requires forall k | 0 <= k < |ticks| :: ticks[k].at < e.at + 60 * h.row.interval
    ensures var x := AfterAll(After(h, e), ticks); var y := After(x, Tick(u));
            && x == After(h, e) && x.row.last == Some(e.at)
            && x.autos == (if e.Tick? then h.autos + [e.at] else h.autos)
            && (u >= e.at + 60 * h.row.interval ==> y.autos == x.autos + [u] && y.row.last == Some(u))
            && (u < e.at + 60 * h.row.interval ==> y == x)
  {
    WaitsUntil(After(h, e), ticks, e.at + 60 * h.row.interval, u);
  }

  /** A manual reset of a row that is disabled, or has no interval, moves only its last reset; and a
      disabled row lets every tick pass. */
  lemma ManualOfIdle(h: History, t: int, ticks: seq<Event>)
    requires (!h.row.enabled || h.row.interval == 0) && AllTicks(ticks)
    ensures After(h, Manual(t)) == h.(row := h.row.(last := Some(t)))
    ensures !h.row.enabled ==> AfterAll(After(h, Manual(t)), ticks) == After(h, Manual(t))
  {
    if !h.row.enabled {
      NeverFires(After(h, Manual(t)), ticks);
    }
  }

  /** The reset after an update that leaves the row enabled and carries an interval of at least a minute:
      an interval after the last reset, if that is still to come, and else an interval after the
      update. */
  lemma FiresAfterUpdate(h: History, t: int, enabled: Option<bool>, interval: nat, ticks: seq<Event>, u: int)
    requires interval >= 1 && AllTicks(ticks) && (enabled == Some(true) || (enabled == None && h.row.enabled))
    requires var again := h.row.last.Some? && h.row.last.value + 60 * interval > t;
             forall k | 0 <= k < |ticks| :: ticks[k].at < (if again then h.row.last.value else t) + 60 * interval
    ensures var again := h.row.last.Some? && h.row.last.value + 60 * interval > t;
            var due := (if again then h.row.last.value else t) + 60 * interval;
            var x := AfterAll(After(h, Update(t, enabled, Some(interval))), ticks); var y := After(x, Tick(u));
            && x.autos == h.autos && x.row.last == h.row.last && x.row.enabled && x.row.interval == interval
            && (u >= due ==> y.autos == x.autos + [u] && y.row.last == Some(u))
            && (u < due ==> y == x)
  {
    var again := h.row.last.Some? && h.row.last.value + 60 * interval > t;
    WaitsUntil(After(h, Update(t, enabled, Some(interval))), ticks,
               (if again then h.row.last.value else t) + 60 * interval, u);
  }

  /** After an update without an interval, or one that leaves the row disabled, no tick resets; one with
      an interval below a minute is refused and changes nothing. */
  lemma SilentAfterUpdate(h: History, t: int, enabled: Option<bool>, interval: Option<int>, ticks: seq<Event>)
    requires AllTicks(ticks)
    ensures var x := After(h, Update(t, enabled, interval));
            && x.autos == h.autos && x.row.last == h.row.last
            && (interval == None ==>
                  && AfterAll(x, ticks) == x && x.row.interval == h.row.interval
                  && x.row.enabled == if enabled == None then h.row.enabled else enabled.value)
            && (interval.Some? && interval.value >= 1 && (enabled == Some(false) || (enabled == None && !h.row.enabled))
                ==> AfterAll(x, ticks) == x && !x.row.enabled && x.row.interval == interval.value)
            && (interval.Some? && interval.value < 1 ==> x == h)
  {
    var x := After(h, Update(t, enabled, interval));
    if !x.row.enabled || x.row.next == None {
      NeverFires(x, ticks);
    }
  }

  /** A new row lets every tick pass; once it is enabled (which alone starts nothing) and reset by hand, it
      is reset again ten minutes later. */
  lemma NewRow(ticks: seq<Event>, on: int, more: seq<Event>, at: int, u: int)
    requires AllTicks(ticks) && AllTicks(more)
    ensures AfterAll(BEGINNING, ticks) == BEGINNING && BEGINNING.autos == []
    ensures !BEGINNING.row.enabled && BEGINNING.row.last == None
    ensures var x := AfterAll(After(BEGINNING, Update(on, Some(true), None)), more);
            && x.autos == [] && x.row.enabled
            && var y := After(After(x, Manual(at)), Tick(u)); y.autos == if u >= at + 600 then [u] else []
  {
    NeverFires(BEGINNING, ticks);
    var x := After(BEGINNING, Update(on, Some(true), None));
    NeverFires(x, more);
    WaitsUntil(After(x, Manual(at)), [], at + 600, u);
  }

  // ---------- the scheduler is not atomic ----------

  /** The scheduler queries all due rows at once and then resets one core after another; a row may be
      written between the query and its turn. */
  predicate IsHandler(e: Event) {
    !e.Tick?
  }

  predicate Early(r: Row, now: int) {
    r.last.Some? && now < Ahead(r.last.value, r.interval)
  }

  predicate HasManual(events: seq<Event>) {
    exists k | 0 <= k < |events| :: events[k].Manual?
  }

  lemma {:induction false} HandlersOnLast(h: History, events: seq<Event>, now: int)
    requires forall k | 0 <= k < |events| :: IsHandler(events[k]) && events[k].at >= now
    ensures var r := AfterAll(h, events).row;
            if HasManual(events) then r.last.Some? && r.last.value >= now else r.last == h.row.last
    ensures h.row.interval >= 1 ==> AfterAll(h, events).row.interval >= 1
    decreases |events|
  {
    if events != [] {
      var n := |events| - 1;
      HandlersOnLast(h, events[..n], now);
      assert events[n].Manual? ==> HasManual(events);
      if k :| 0 <= k < n && events[k].Manual? {
        assert events[..n][k].Manual?;
      }
    }
  }

  /** A core found due at `now`, whose row handlers wrote before its turn: its automatic reset follows
      another reset too early exactly when one of them was a manual reset, or the interval it then has
      is longer than the time since the last one. When no handler came between, never. */
  lemma StaleScan(h: History, events: seq<Event>, now: int)
    requires Spaced(h.row) && h.row.interval >= 1 && Due(h.row, now)
    requires forall k | 0 <= k < |events| :: IsHandler(events[k]) && events[k].at >= now
    ensures var r := AfterAll(h, events).row;
            Early(r, now) <==> HasManual(events) || (h.row.last.Some? && now < Ahead(h.row.last.value, r.interval))
    ensures events == [] ==> !Early(AfterAll(h, events).row, now)
  {
    HandlersOnLast(h, events, now);
  }

  /** The row the late turn leaves breaks the spacing exactly when the core is enabled and its interval
      was raised since the query. */
  lemma StaleScanRow(r: Row, seen: Row, now: int)
    ensures Spaced(AutoReset(r, seen, now)) <==> (r.enabled ==> r.interval <= seen.interval)
  {
  }
}
