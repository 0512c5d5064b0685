/** The interval splitters: `datetime_range_gen` of app/helpers/misc.py, over
    instants, and the legacy `generate_date_ranges` of main.py, over day
    numbers. */
module Windows {
  /** A window `(start, end)`. */
  type Window = (int, int)

  // ---------------------------------------------------------------------
  // datetime_range_gen

  /** The windows `datetime_range_gen(start, end, delta)` yields, in order. */
  function RangeGen(start: int, end: int, delta: int): (ws: seq<Window>)
    requires delta > 0
    decreases end - start
  {
    if start < end then
      var stop := if start + delta < end then start + delta else end;
      [(start, stop)] + RangeGen(stop, end, delta)
    else []
  }

  /** `datetime_range_gen` as the generator loop it is: `start` is reassigned
      to each window's end. */
  method RangeGenLoop(startDate: int, endDate: int, delta: int) returns (ws: seq<Window>)
    requires delta > 0
    ensures ws == RangeGen(startDate, endDate, delta)
  {
    ws := [];
    var start := startDate;
    while start < endDate
      invariant RangeGen(startDate, endDate, delta) == ws + RangeGen(start, endDate, delta)
      decreases endDate - start
    {
      var end := if start + delta < endDate then start + delta else endDate;
      ws := ws + [(start, end)];
      start := end;
    }
  }

  /** Nothing is yielded exactly when the interval is empty. */
  lemma RangeGenEmpty(start: int, end: int, delta: int)
    requires delta > 0
    ensures RangeGen(start, end, delta) == [] <==> start >= end
  {
  }

  /** Every window lies inside `[start, end]`, is non-empty and at most
      `delta` wide; the first starts at `start`, each later one where the
      previous ended, and the last ends at `end`: together they cover the
      interval without gaps or overlaps. */
  lemma {:induction false} RangeGenTiles(start: int, end: int, delta: int)
    requires delta > 0 && start < end
    ensures var ws := RangeGen(start, end, delta);
      && |ws| > 0
      && ws[0].0 == start
      && ws[|ws| - 1].1 == end
      && (forall i | 0 <= i < |ws| :: start <= ws[i].0 < ws[i].1 <= end && ws[i].1 - ws[i].0 <= delta)
      && (forall i | 0 < i < |ws| :: ws[i].0 == ws[i - 1].1)
    decreases end - start
  {
    var stop := if start + delta < end then start + delta else end;
    var rest := RangeGen(stop, end, delta);
    var ws := RangeGen(start, end, delta);
    assert ws == [(start, stop)] + rest;
    if stop < end {
      RangeGenTiles(stop, end, delta);
      assert ws[|ws| - 1] == rest[|rest| - 1];
      forall i | 0 < i < |ws|
        ensures ws[i].0 == ws[i - 1].1
      {
        assert ws[i] == rest[i - 1];
        if i > 1 {
          assert ws[i - 1] == rest[i - 2];
        }
      }
      forall i | 0 < i < |ws|
        ensures start <= ws[i].0 < ws[i].1 <= end && ws[i].1 - ws[i].0 <= delta
      {
        assert ws[i] == rest[i - 1];
      }
    } else {
      assert rest == [];
      assert ws == [(start, stop)];
    }
  }

  /** There are exactly ⌈(end − start) / delta⌉ windows: `n` is the least
      count with `n * delta >= end - start`. */
  lemma {:induction false} RangeGenCount(start: int, end: int, delta: int)
    requires delta > 0 && start < end
    ensures var n := |RangeGen(start, end, delta)|;
      (n - 1) * delta < end - start <= n * delta
    decreases end - start
  {
    var stop := if start + delta < end then start + delta else end;
    if stop < end {
      RangeGenCount(stop, end, delta);
      var m := |RangeGen(stop, end, delta)|;
      assert |RangeGen(start, end, delta)| == m + 1;
      assert (m + 1) * delta == m * delta + delta;
    }
  }

  // ---------------------------------------------------------------------
  // generate_date_ranges (main.py), days as integers

  /** The `delta_days` default of `generate_date_ranges`. */
  const DEFAULT_DELTA_DAYS := 31

  /** `generate_date_ranges` as written: windows of at most `deltaDays`
      inclusive days, each starting the day after the previous one ended,
      while the start lies strictly before `end`. */
  function LegacyRanges(start: int, end: int, deltaDays: int): (ws: seq<Window>)
    requires deltaDays >= 1
    decreases end - start
  {
    if start < end then
      var stop := if start + (deltaDays - 1) < end then start + (deltaDays - 1) else end;
      [(start, stop)] + LegacyRanges(stop + 1, end, deltaDays)
    else []
  }

  /** The generator loop of `generate_date_ranges`. */
  method LegacyRangesLoop(startDate: int, endDate: int, deltaDays: int) returns (ws: seq<Window>)
    requires deltaDays >= 1
    ensures ws == LegacyRanges(startDate, endDate, deltaDays)
  {
    ws := [];
    var currentStart := startDate;
    while currentStart < endDate
      invariant LegacyRanges(startDate, endDate, deltaDays) == ws + LegacyRanges(currentStart, endDate, deltaDays)
      decreases endDate - currentStart
    {
      var currentEnd := if currentStart + (deltaDays - 1) < endDate then currentStart + (deltaDays - 1) else endDate;
      ws := ws + [(currentStart, currentEnd)];
      currentStart := currentEnd + 1;
    }
  }

  /** Every legacy window satisfies `start <= s <= e <= end` with at most
      `deltaDays` days, and the next window starts the day after. */
  lemma {:induction false} LegacyRangesBounded(start: int, end: int, deltaDays: int)
    requires deltaDays >= 1
    ensures var ws := LegacyRanges(start, end, deltaDays);
      && (ws == [] <==> start >= end)
      && (forall i | 0 <= i < |ws| :: start <= ws[i].0 <= ws[i].1 <= end && ws[i].1 - ws[i].0 < deltaDays)
      && (forall i | 0 < i < |ws| :: ws[i].0 == ws[i - 1].1 + 1)
    decreases end - start
  {
    if start < end {
      var stop := if start + (deltaDays - 1) < end then start + (deltaDays - 1) else end;
      LegacyRangesBounded(stop + 1, end, deltaDays);
    }
  }

  /** Whether some window contains day `d`. */
  predicate Covers(ws: seq<Window>, d: int) {
    exists i | 0 <= i < |ws| :: ws[i].0 <= d <= ws[i].1
  }

  /** As written, the last day is lost whenever a window ends on the day
      before it: with the default 31 days, `[0, 31]` yields only `(0, 30)`. */
  lemma LegacyRangesMissEndDay()
    ensures LegacyRanges(0, 31, DEFAULT_DELTA_DAYS) == [(0, 30)]
    ensures !Covers(LegacyRanges(0, 31, DEFAULT_DELTA_DAYS), 31)
  {
    assert LegacyRanges(31, 31, DEFAULT_DELTA_DAYS) == [];
  }

  /** The intended splitter: the loop runs while the start is at most `end`,
      so the day `end` is always included. */
  function DateRanges(start: int, end: int, deltaDays: int): (ws: seq<Window>)
    requires deltaDays >= 1
    decreases end - start
  {
    if start <= end then
      var stop := if start + (deltaDays - 1) < end then start + (deltaDays - 1) else end;
      [(start, stop)] + DateRanges(stop + 1, end, deltaDays)
    else []
  }

  /** The corrected windows cover every day of `[start, end]` and no other,
      each at most `deltaDays` days, each the day after the previous one. */
  lemma DateRangesCover(start: int, end: int, deltaDays: int)
    requires deltaDays >= 1
    ensures forall d :: Covers(DateRanges(start, end, deltaDays), d) <==> start <= d <= end
    ensures forall i | 0 <= i < |DateRanges(start, end, deltaDays)| ::
      DateRanges(start, end, deltaDays)[i].0 <= DateRanges(start, end, deltaDays)[i].1 <
      DateRanges(start, end, deltaDays)[i].0 + deltaDays
    ensures forall i | 0 < i < |DateRanges(start, end, deltaDays)| ::
      DateRanges(start, end, deltaDays)[i].0 == DateRanges(start, end, deltaDays)[i - 1].1 + 1
  {
    DateRangesCoverDays(start, end, deltaDays);
    DateRangesShape(start, end, deltaDays);
  }

  lemma {:induction false} DateRangesShape(start: int, end: int, deltaDays: int)
    requires deltaDays >= 1
    ensures forall i | 0 <= i < |DateRanges(start, end, deltaDays)| ::
      DateRanges(start, end, deltaDays)[i].0 <= DateRanges(start, end, deltaDays)[i].1 <
      DateRanges(start, end, deltaDays)[i].0 + deltaDays
    ensures forall i | 0 < i < |DateRanges(start, end, deltaDays)| ::
      DateRanges(start, end, deltaDays)[i].0 == DateRanges(start, end, deltaDays)[i - 1].1 + 1
    decreases end - start
  {
    if start <= end {
      var stop := if start + (deltaDays - 1) < end then start + (deltaDays - 1) else end;
      var rest := DateRanges(stop + 1, end, deltaDays);
      DateRangesShape(stop + 1, end, deltaDays);
      var ws := DateRanges(start, end, deltaDays);
      assert ws == [(start, stop)] + rest;
      forall i | 0 < i < |ws|
        ensures ws[i].0 == ws[i - 1].1 + 1
      {
        if i > 1 {
          assert ws[i] == rest[i - 1] && ws[i - 1] == rest[i - 2];
        } else {
          assert ws[1] == rest[0];
        }
      }
      forall i | 0 <= i < |ws|
        ensures ws[i].0 <= ws[i].1 < ws[i].0 + deltaDays
      {
        if i > 0 {
          assert ws[i] == rest[i - 1];
        }
      }
    }
  }

  lemma {:induction false} DateRangesCoverDays(start: int, end: int, deltaDays: int)
    requires deltaDays >= 1
    ensures forall d :: Covers(DateRanges(start, end, deltaDays), d) <==> start <= d <= end
    decreases end - start
  {
    if start <= end {
      var stop := if start + (deltaDays - 1) < end then start + (deltaDays - 1) else end;
      var rest := DateRanges(stop + 1, end, deltaDays);
      DateRangesCoverDays(stop + 1, end, deltaDays);
      var ws := DateRanges(start, end, deltaDays);
      assert ws == [(start, stop)] + rest;
      forall d
        ensures Covers(ws, d) <==> start <= d <= end
      {
        if start <= d <= stop {
          assert ws[0].0 <= d <= ws[0].1;
        } else if stop < d <= end {
          assert Covers(rest, d);
          var i :| 0 <= i < |rest| && rest[i].0 <= d <= rest[i].1;
          assert ws[i + 1] == rest[i];
        }
        if Covers(ws, d) {
          var i :| 0 <= i < |ws| && ws[i].0 <= d <= ws[i].1;
          if i > 0 {
            assert rest[i - 1] == ws[i];
            assert Covers(rest, d);
          }
        }
      }
    } else {
      assert DateRanges(start, end, deltaDays) == [];
    }
  }
}
