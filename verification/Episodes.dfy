/** What a sequence of calls says about one equipment, read off the reports alone: whether it
    is on, when the current on-episode began and when the last one ended. The engine's
    incremental runtime is shown to be just that. */
module Episodes {
  import opened Domain
  import opened Safety
  import opened Accounting

  predicate ReportsAt(calls: seq<Call>, k: int, on: bool) {
    0 <= k < |calls| && calls[k].report == Some(on)
  }

  /** The latest report says "on". */
  ghost predicate OnNow(calls: seq<Call>) {
    exists k :: ReportsAt(calls, k, true) && forall j :: k < j < |calls| ==> calls[j].report.None?
  }

  /** The current on-episode began with the report at `k`: equipment that was not on was
      reported on, and has not been reported off since. */
  ghost predicate EpisodeStart(calls: seq<Call>, k: int) {
    && ReportsAt(calls, k, true) && !OnNow(calls[..k])
    && forall j :: k < j < |calls| ==> calls[j].report != Some(false)
  }

  /** The report at `k` turned equipment off that was on. */
  ghost predicate EndsEpisode(calls: seq<Call>, k: int) {
    ReportsAt(calls, k, false) && OnNow(calls[..k])
  }

  /** The last on-episode that ended did so at `k`. */
  ghost predicate LastEnd(calls: seq<Call>, k: int) {
    EndsEpisode(calls, k) && forall j :: k < j < |calls| ==> !EndsEpisode(calls, j)
  }

  lemma {:induction false} OnNowSnoc(calls: seq<Call>, c: Call)
    ensures OnNow(calls + [c]) <==> if c.report.Some? then c.report.value else OnNow(calls)
  {
    var longer := calls + [c];
    assert longer[|calls|] == c;
    assert forall j :: 0 <= j < |calls| ==> longer[j] == calls[j];
    if c.report == Some(true) {
      assert ReportsAt(longer, |calls|, true);
    } else if c.report.None? {
      if OnNow(calls) {
        var k :| ReportsAt(calls, k, true) && forall j :: k < j < |calls| ==> calls[j].report.None?;
        assert ReportsAt(longer, k, true);
      }
      if OnNow(longer) {
        var k :| ReportsAt(longer, k, true) && forall j :: k < j < |longer| ==> longer[j].report.None?;
        assert ReportsAt(calls, k, true);
        forall j | k < j < |calls| ensures calls[j].report.None? {
          assert longer[j].report.None?;
        }
      }
    }
  }

  /** The engine's flag is the latest report. */
  lemma {:induction false} ReplayIsOn(calls: seq<Call>)
    ensures Replay(calls).on <==> OnNow(calls)
    decreases |calls|
  {
    if calls != [] {
      var before, last := calls[..|calls| - 1], calls[|calls| - 1];
      ReplayIsOn(before);
      assert calls == before + [last];
      OnNowSnoc(before, last);
    }
  }

  lemma {:induction false} PrefixOfSnoc(calls: seq<Call>, c: Call, k: nat)
    requires k <= |calls|
    ensures (calls + [c])[..k] == calls[..k]
  {
  }

  /** While the equipment is on, `onSince` is when the episode began. */
  lemma {:induction false} FindStart(calls: seq<Call>) returns (k: int)
    requires OnNow(calls)
    ensures EpisodeStart(calls, k) && Replay(calls).onSince == calls[k].at
    decreases |calls|
  {
    var before, last := calls[..|calls| - 1], calls[|calls| - 1];
    assert calls == before + [last];
    OnNowSnoc(before, last);
    ReplayIsOn(before);
    if OnNow(before) {
      k := FindStart(before);
      PrefixOfSnoc(before, last, k);
      assert ReportsAt(calls, k, true);
    } else {
      k := |before|;
      assert calls[..k] == before;
    }
  }

  lemma {:induction false} StartUnique(calls: seq<Call>, j: int, k: int)
    requires EpisodeStart(calls, j) && EpisodeStart(calls, k)
    ensures j == k
  {
    if j < k {
      StartCovers(calls, j, k);
    } else if k < j {
      StartCovers(calls, k, j);
    }
  }

  /** Inside an episode the equipment is on. */
  lemma {:induction false} StartCovers(calls: seq<Call>, j: int, k: int)
    requires EpisodeStart(calls, j) && j < k <= |calls|
    ensures OnNow(calls[..k])
    decreases k
  {
    var before := calls[..k - 1];
    assert calls[..k] == before + [calls[k - 1]];
    OnNowSnoc(before, calls[k - 1]);
    if j < k - 1 {
      StartCovers(calls, j, k - 1);
    }
  }

  lemma {:induction false} OnSinceIsStart(calls: seq<Call>, k: int)
    requires EpisodeStart(calls, k)
    ensures Replay(calls).on && Replay(calls).onSince == calls[k].at
  {
    StartCovers(calls, k, |calls|);
    assert calls[..|calls|] == calls;
    ReplayIsOn(calls);
    var start := FindStart(calls);
    StartUnique(calls, k, start);
  }

  /** `offSince` is when the last on-episode ended, unset if none has. */
  lemma {:induction false} OffSinceIsEnd(calls: seq<Call>)
    ensures forall k :: LastEnd(calls, k) ==> Replay(calls).offSince == calls[k].at
    ensures (forall k :: !EndsEpisode(calls, k)) ==> Replay(calls).offSince == 0
    ensures (exists k :: EndsEpisode(calls, k)) ==> exists k :: LastEnd(calls, k)
    decreases |calls|
  {
    if calls != [] {
      var n, before, last := |calls| - 1, calls[..|calls| - 1], calls[|calls| - 1];
      OffSinceIsEnd(before);
      ReplayIsOn(before);
      forall k | 0 <= k < n
        ensures EndsEpisode(calls, k) <==> EndsEpisode(before, k)
      {
        assert calls[..k] == before[..k];
      }
      if EndsEpisode(calls, n) {
        assert LastEnd(calls, n);
      } else {
        EndsStay(calls, before);
      }
    }
  }

  lemma {:induction false} EndsStay(calls: seq<Call>, before: seq<Call>)
    requires calls != [] && before == calls[..|calls| - 1] && !EndsEpisode(calls, |calls| - 1)
    requires forall k :: 0 <= k < |before| ==> (EndsEpisode(calls, k) <==> EndsEpisode(before, k))
    ensures forall k :: EndsEpisode(calls, k) <==> EndsEpisode(before, k)
    ensures forall k :: LastEnd(calls, k) <==> LastEnd(before, k)
  {
  }
}
