/** Daily on-time. The engine keeps it incrementally, call by call; here it is shown to be
    the measure of a set of instants: the nanoseconds, from the day's first call to the
    latest one, at which the last report said "on". */
module Accounting {
  import opened Domain
  import opened Safety

  /** One accounting call for one equipment: a plain one (an evaluation or a watchdog check)
      or one that reports the equipment's state. */
  datatype Call = Call(at: Time, report: Option<bool>)

  function Apply(r: Runtime, c: Call): Runtime {
    match c.report
    case None => Account(r, c.at)
    case Some(on) => Record(r, on, c.at)
  }

  /** The runtime after a sequence of calls. */
  function Replay(calls: seq<Call>): Runtime {
    if calls == [] then NO_RUNTIME
    else Apply(Replay(calls[..|calls| - 1]), calls[|calls| - 1])
  }

  /** Call times are set and never step back. */
  ghost predicate Ordered(calls: seq<Call>) {
    && (forall i :: 0 <= i < |calls| ==> calls[i].at != 0)
    && (forall i, j :: 0 <= i < j < |calls| ==> calls[i].at <= calls[j].at)
  }

  // ---------- The reference: what the reports say, instant by instant ----------

  /** The state in force at instant `t`: the latest report made at or before `t`. */
  ghost predicate ReportedOn(calls: seq<Call>, t: Time) {
    if calls == [] then false
    else
      var last := calls[|calls| - 1];
      if last.report.Some? && last.at <= t then last.report.value else ReportedOn(calls[..|calls| - 1], t)
  }

  /** How many nanoseconds of [a, b) the equipment was reported on. */
  ghost function OnTime(calls: seq<Call>, a: Time, b: Time): nat
    decreases b - a
  {
    if a >= b then 0
    else OnTime(calls, a, b - 1) + (if ReportedOn(calls, b - 1) then 1 else 0)
  }

  /** When the day of the latest call was opened: the first call with the same date. */
  ghost function DayOpened(calls: seq<Call>): Time
    requires calls != []
  {
    var n := |calls|;
    if n == 1 || UtcDay(calls[n - 2].at) != UtcDay(calls[n - 1].at) then calls[n - 1].at
    else DayOpened(calls[..n - 1])
  }

  // ---------- Properties of the reference ----------

  lemma {:induction false} OnTimeIgnoresLaterCall(calls: seq<Call>, c: Call, a: Time, b: Time)
    requires b <= c.at || c.report.None?
    ensures OnTime(calls + [c], a, b) == OnTime(calls, a, b)
    decreases b - a
  {
    if a < b {
      OnTimeIgnoresLaterCall(calls, c, a, b - 1);
      assert ReportedOn(calls + [c], b - 1) == ReportedOn(calls, b - 1) by {
        assert (calls + [c])[..|calls|] == calls;
      }
    }
  }

  lemma {:induction false} ReportedOnSettles(calls: seq<Call>, t: Time)
    requires Ordered(calls)
    requires calls != [] ==> calls[|calls| - 1].at <= t
    ensures ReportedOn(calls, t) == Replay(calls).on
  {
    if calls != [] {
      var before := calls[..|calls| - 1];
      ReportedOnSettles(before, t);
    }
  }

  /** Over a stretch with no further report the on-time is all of it or none of it. */
  lemma {:induction false} OnTimeOfQuietStretch(calls: seq<Call>, a: Time, b: Time)
    requires calls != [] && Ordered(calls)
    requires calls[|calls| - 1].at <= a <= b
    ensures OnTime(calls, a, b) == if Replay(calls).on then b - a else 0
    decreases b - a
  {
    if a < b {
      OnTimeOfQuietStretch(calls, a, b - 1);
      ReportedOnSettles(calls, b - 1);
    }
  }

  lemma {:induction false} OnTimeSplits(calls: seq<Call>, a: Time, m: Time, b: Time)
    requires a <= m <= b
    ensures OnTime(calls, a, b) == OnTime(calls, a, m) + OnTime(calls, m, b)
    decreases b - m
  {
    if m < b {
      OnTimeSplits(calls, a, m, b - 1);
    }
  }

  lemma {:induction false} OnTimeBounded(calls: seq<Call>, a: Time, b: Time)
    ensures a <= b ==> OnTime(calls, a, b) <= b - a
    decreases b - a
  {
    if a < b {
      OnTimeBounded(calls, a, b - 1);
    }
  }

  lemma {:induction false} DayOpenedIsFirstOfDay(calls: seq<Call>)
    requires calls != [] && Ordered(calls)
    ensures UtcDay(DayOpened(calls)) == UtcDay(calls[|calls| - 1].at)
    ensures DayOpened(calls) <= calls[|calls| - 1].at
    ensures exists k :: 0 <= k < |calls| && calls[k].at == DayOpened(calls)
    ensures forall k :: 0 <= k < |calls| && UtcDay(calls[k].at) == UtcDay(calls[|calls| - 1].at)
                        ==> DayOpened(calls) <= calls[k].at
  {
    var n := |calls|;
    if n > 1 && UtcDay(calls[n - 2].at) == UtcDay(calls[n - 1].at) {
      var before := calls[..n - 1];
      DayOpenedIsFirstOfDay(before);
      var k :| 0 <= k < |before| && before[k].at == DayOpened(before);
      assert calls[k].at == DayOpened(calls);
      forall j | 0 <= j < |calls| && UtcDay(calls[j].at) == UtcDay(calls[n - 1].at)
        ensures DayOpened(calls) <= calls[j].at
      {
        if j < n - 1 {
          assert before[j] == calls[j];
        }
      }
    } else {
      assert calls[n - 1].at == DayOpened(calls);
      forall j | 0 <= j < |calls| && UtcDay(calls[j].at) == UtcDay(calls[n - 1].at)
        ensures DayOpened(calls) <= calls[j].at
      {
        if j < n - 1 {
          assert calls[j].at <= calls[n - 2].at <= calls[n - 1].at;
          DayMonotone(calls[j].at, calls[n - 2].at);
          DayMonotone(calls[n - 2].at, calls[n - 1].at);
        }
      }
    }
  }

  lemma {:induction false} DayMonotone(s: Time, t: Time)
    requires s <= t
    ensures UtcDay(s) <= UtcDay(t)
  {
  }

  lemma {:induction false} SameDayCloserThanDay(s: Time, t: Time)
    requires UtcDay(s) == UtcDay(t)
    ensures t - s < DAY
  {
  }

  // ---------- The engine's incremental account meets the reference ----------

  /** Between calls, on-equipment is accounted exactly up to the latest call. */
  lemma {:induction false} ReplayShape(calls: seq<Call>)
    requires calls != [] && Ordered(calls)
    ensures var r := Replay(calls);
            && r.dailyDate == Some(UtcDay(calls[|calls| - 1].at))
            && (r.on ==> r.lastAccounted == calls[|calls| - 1].at)
  {
    if |calls| > 1 {
      ReplayShape(calls[..|calls| - 1]);
    } else {
      assert Replay(calls[..0]) == NO_RUNTIME;
    }
  }

  /** What one more call adds to the account. */
  lemma {:induction false} StepDailyOn(r: Runtime, previous: Time, c: Call)
    requires previous != 0 && c.at != 0 && previous <= c.at
    requires r.dailyDate == Some(UtcDay(previous))
    requires r.on ==> r.lastAccounted == previous
    ensures Apply(r, c).dailyOn
         == if UtcDay(previous) != UtcDay(c.at) then 0
            else if r.on then r.dailyOn + (c.at - previous)
            else r.dailyOn
  {
  }

  /** Main result: after any ordered run of calls, `dailyOn` is the reported on-time of the
      current UTC day since that day's first call, and stays below 24 hours. */
  lemma {:induction false} DailyOnIsReportedOnTime(calls: seq<Call>)
    requires calls != [] && Ordered(calls)
    ensures Replay(calls).dailyOn == OnTime(calls, DayOpened(calls), calls[|calls| - 1].at)
    ensures 0 <= Replay(calls).dailyOn < DAY
    decreases |calls|, 1
  {
    var n := |calls|;
    DayOpenedIsFirstOfDay(calls);
    OnTimeBounded(calls, DayOpened(calls), calls[n - 1].at);
    SameDayCloserThanDay(DayOpened(calls), calls[n - 1].at);
    if n == 1 {
      assert Replay(calls[..0]) == NO_RUNTIME;
    } else {
      DailyOnStep(calls);
    }
  }

  lemma {:induction false} DailyOnStep(calls: seq<Call>)
    requires |calls| > 1 && Ordered(calls)
    ensures Replay(calls).dailyOn == OnTime(calls, DayOpened(calls), calls[|calls| - 1].at)
    decreases |calls|, 0
  {
    var n := |calls|;
    var last, previous, before := calls[n - 1], calls[n - 2], calls[..n - 1];
    assert calls == before + [last] && previous == before[n - 2];
    ReplayShape(before);
    StepDailyOn(Replay(before), previous.at, last);
    if UtcDay(previous.at) == UtcDay(last.at) {
      var open := DayOpened(before);
      DailyOnIsReportedOnTime(before);
      DayOpenedIsFirstOfDay(before);
      OnTimeIgnoresLaterCall(before, last, open, last.at);
      OnTimeSplits(before, open, previous.at, last.at);
      OnTimeOfQuietStretch(before, previous.at, last.at);
    }
  }

  // ---------- Extra calls ----------

  /** When a plain call at `s` is absorbed by the next account at `t`: exactly when it does
      not open, while the equipment is on, the very day that `t` falls in. */
  lemma {:induction false} ExtraAccountAbsorbedIff(r: Runtime, s: Time, t: Time)
    requires s != 0 && t != 0 && s <= t
    requires r.on ==> r.lastAccounted != 0 && r.lastAccounted <= s
    requires r.dailyDate.Some? ==> r.dailyDate.value <= UtcDay(s)
    ensures Account(Account(r, s), t) == Account(r, t)
            <==> (!r.on || s == t || r.dailyDate == Some(UtcDay(s)) || UtcDay(t) != UtcDay(s))
  {
    DayMonotone(s, t);
  }

  /** A plain call made at an intermediate time of a day that is already open leaves every
      later runtime, and so every later `dailyOn`, as it was. */
  lemma {:induction false} ExtraCallChangesNothing(before: seq<Call>, extra: Call, after: seq<Call>)
    requires before != [] && after != []
    requires extra.report.None?
    requires Ordered(before + [extra] + after)
    requires UtcDay(extra.at) == UtcDay(before[|before| - 1].at)
    ensures Replay(before + [extra] + after) == Replay(before + after)
  {
    var n := |after|;
    var longer := before + [extra] + after;
    var shorter := before + after;
    assert longer[..|longer| - 1] == before + [extra] + after[..n - 1];
    assert shorter[..|shorter| - 1] == before + after[..n - 1];
    assert longer[|longer| - 1] == shorter[|shorter| - 1] == after[n - 1];
    assert longer[|before|] == extra;
    if n == 1 {
      assert after == [after[0]];
      ExtraCallAbsorbed(before, extra, after[0]);
    } else {
      OrderedPrefix(longer, |longer| - 1);
      ExtraCallChangesNothing(before, extra, after[..n - 1]);
    }
  }

  /** The same, one call after the extra one. */
  lemma {:induction false} ExtraCallAbsorbed(before: seq<Call>, extra: Call, next: Call)
    requires before != [] && extra.report.None?
    requires Ordered(before + [extra] + [next])
    requires UtcDay(extra.at) == UtcDay(before[|before| - 1].at)
    ensures Replay(before + [extra] + [next]) == Replay(before + [next])
  {
    var longer := before + [extra] + [next];
    assert longer[..|longer| - 1] == before + [extra];
    assert (before + [extra])[..|before|] == before && (before + [next])[..|before|] == before;
    OrderedPrefix(longer, |before|);
    assert longer[..|before|] == before;
    ReplayShape(before);
    assert longer[|before|] == extra && longer[|before| + 1] == next && longer[|before| - 1] == before[|before| - 1];
    ExtraAccountAbsorbedIff(Replay(before), extra.at, next.at);
  }

  lemma {:induction false} OrderedPrefix(calls: seq<Call>, n: nat)
    requires n <= |calls| && Ordered(calls)
    ensures Ordered(calls[..n])
  {
  }

  /** When an accounting dated back to `s` leaves the daily on-time at a later `t` as it would
      have been: exactly when it stays within the open day, when that day is over by `t`, or
      when there was nothing to lose. */
  lemma {:induction false} BackdatedCallHarmlessIff(r: Runtime, s: Time, last: Time, t: Time)
    requires s != 0 && last != 0 && t != 0 && s < last <= t && r.dailyOn >= 0
    requires r.dailyDate == Some(UtcDay(last)) && (r.on ==> r.lastAccounted == last)
    ensures Account(Account(r, s), t).dailyOn == Account(r, t).dailyOn
            <==> || UtcDay(s) == UtcDay(last) || UtcDay(t) != UtcDay(last)
                 || (r.dailyOn == 0 && (!r.on || t == last))
  {
    DayMonotone(s, last);
    DayMonotone(last, t);
  }

  /** So ordered times are needed: an evaluation dated to an earlier day discards the on-time
      of the current one. */
  lemma {:induction false} BackdatedCallForgetsToday()
    ensures var calls := [Call(DAY, Some(true)), Call(DAY + SECOND, None), Call(DAY - SECOND, None), Call(DAY + SECOND, None)];
            && OnTime(calls, DAY, DAY + SECOND) == SECOND
            && Replay(calls).dailyOn == 0
  {
    var calls := [Call(DAY, Some(true)), Call(DAY + SECOND, None), Call(DAY - SECOND, None), Call(DAY + SECOND, None)];
    var c0, c1, c2, c3 := calls[0], calls[1], calls[2], calls[3];
    OnTimeIgnoresLaterCall([c0, c1, c2], c3, DAY, DAY + SECOND);
    OnTimeIgnoresLaterCall([c0, c1], c2, DAY, DAY + SECOND);
    OnTimeIgnoresLaterCall([c0], c1, DAY, DAY + SECOND);
    assert calls == [c0, c1, c2] + [c3] && [c0, c1, c2] == [c0, c1] + [c2] && [c0, c1] == [c0] + [c1];
    assert [c0][..0] == [];
    OnTimeOfQuietStretch([c0], DAY, DAY + SECOND);
    assert calls[..3] == [c0, c1, c2] && [c0, c1, c2][..2] == [c0, c1] && [c0, c1][..1] == [c0];
  }
}
