/**
 * src/components/UpdateStatus.jsx: the relative age shown beside the last
 * update time, and the stale flag. The time elapsed since `lastUpdated`
 * (`now - new Date(lastUpdated)`, in milliseconds) is an input; None stands
 * for the NaN of an unparsable date.
 */
module UpdateStatus {
  import opened Wrappers
  import opened Strings

  const MsPerMinute: int := 60000
  const MsPerHour: int := 1000 * 60 * 60

  /** `if (!lastUpdated) return null`: the component renders only for a
      non-empty time stamp. */
  predicate Renders(lastUpdated: Option<string>)
  {
    lastUpdated.Some? && lastUpdated.value != ""
  }

  /** `getTimeSinceUpdate`: `Math.floor` is Dafny's `/` by a positive divisor.
      With NaN every comparison fails and the day count prints as `NaN`. */
  function TimeSinceUpdate(diffMs: Option<int>): string
  {
    if diffMs.None? then "NaN" + "日前に更新"
    else
      var diffMins := diffMs.value / MsPerMinute;
      if diffMins < 1 then "更新完了"
      else if diffMins < 60 then NatToString(diffMins) + "分前に更新"
      else
        var diffHours := diffMins / 60;
        if diffHours < 24 then NatToString(diffHours) + "時間前に更新"
        else NatToString(diffHours / 24) + "日前に更新"
  }

  /** `isStale`: more than two hours, compared in hours. */
  predicate IsStale(diffMs: Option<int>)
  {
    diffMs.Some? && diffMs.value as real / MsPerHour as real > 2.0
  }

  /** Whole hours of whole minutes are whole hours of milliseconds. */
  lemma HoursOfMinutes(ms: int)
    ensures (ms / MsPerMinute) / 60 == ms / MsPerHour
  {
    var m := ms / MsPerMinute;
    assert MsPerMinute * m <= ms < MsPerMinute * m + MsPerMinute;
    var h := m / 60;
    assert 60 * h <= m < 60 * h + 60;
    assert MsPerHour * h <= ms < MsPerHour * h + MsPerHour;
  }

  /** Whole days of whole hours are whole days of milliseconds. */
  lemma DaysOfHours(ms: int)
    ensures (ms / MsPerHour) / 24 == ms / (24 * MsPerHour)
  {
    var h := ms / MsPerHour;
    assert MsPerHour * h <= ms < MsPerHour * h + MsPerHour;
    var d := h / 24;
    assert 24 * d <= h < 24 * d + 24;
    assert 24 * MsPerHour * d <= ms < 24 * MsPerHour * d + 24 * MsPerHour;
  }

  /** The four buckets by elapsed milliseconds: under a minute, whole
      minutes under an hour, whole hours under a day, whole days beyond. */
  lemma TimeSinceUpdateSpec(ms: int)
    ensures ms < MsPerMinute ==> TimeSinceUpdate(Some(ms)) == "更新完了"
    ensures MsPerMinute <= ms < 60 * MsPerMinute ==>
      1 <= ms / MsPerMinute < 60 && TimeSinceUpdate(Some(ms)) == NatToString(ms / MsPerMinute) + "分前に更新"
    ensures 60 * MsPerMinute <= ms < 24 * MsPerHour ==>
      1 <= ms / MsPerHour < 24 && TimeSinceUpdate(Some(ms)) == NatToString(ms / MsPerHour) + "時間前に更新"
    ensures 24 * MsPerHour <= ms ==>
      1 <= ms / (24 * MsPerHour) && TimeSinceUpdate(Some(ms)) == NatToString(ms / (24 * MsPerHour)) + "日前に更新"
  {
    HoursOfMinutes(ms);
    DaysOfHours(ms);
    if ms < MsPerMinute {
      assert ms / MsPerMinute < 1;
    } else if ms < 60 * MsPerMinute {
      assert 1 <= ms / MsPerMinute < 60;
    } else if ms < 24 * MsPerHour {
      assert ms / MsPerMinute >= 60;
      assert (ms / MsPerMinute) / 60 < 24;
    } else {
      assert ms / MsPerMinute >= 60;
      assert (ms / MsPerMinute) / 60 >= 24;
    }
  }

  /** Stale exactly when more than two hours (7,200,000 ms) have passed; an
      unparsable date is never stale. */
  lemma IsStaleSpec(diffMs: Option<int>)
    ensures IsStale(diffMs) <==> diffMs.Some? && diffMs.value > 2 * MsPerHour
  {
  }

  /** A stale time stamp is shown in hours or days, never as a few minutes. */
  lemma StaleShowsHoursOrDays(ms: int)
    requires IsStale(Some(ms))
    ensures TimeSinceUpdate(Some(ms)) != "更新完了"
    ensures ms < 24 * MsPerHour ==> ms / MsPerHour >= 2
  {
    TimeSinceUpdateSpec(ms);
    IsStaleSpec(Some(ms));
    assert "更新完了" != NatToString(ms / MsPerHour) + "時間前に更新" by {
      assert |"更新完了"| == 4;
    }
  }
}
