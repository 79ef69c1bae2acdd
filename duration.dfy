/** `format_duration`: how a number of seconds is shown to members. */
module Duration {

  /** The three shapes of the text: "Ns", "Hh Mm" and "Mm Ss". */
  datatype Shown =
    | SecondsOnly(s: int)
    | HoursMinutes(h: int, m: int)
    | MinutesSeconds(m: int, s: int)

  /**
   * Below a minute the seconds are shown alone; from an hour on, hours and
   * minutes (the leftover seconds are dropped); in between, minutes and
   * seconds.  In every case the shown parts add up to the input, up to the
   * seconds that the hours form leaves out.
   */
  function FormatDuration(seconds: int): (r: Shown)
    ensures r.SecondsOnly? <==> seconds < 60
    ensures r.SecondsOnly? ==> r.s == seconds
    ensures r.HoursMinutes? <==> seconds >= 3600
    ensures r.HoursMinutes? ==>
      r.h >= 1 && 0 <= r.m < 60 && 0 <= seconds - (r.h * 3600 + r.m * 60) < 60
    ensures r.MinutesSeconds? ==>
      1 <= r.m < 60 && 0 <= r.s < 60 && r.m * 60 + r.s == seconds
  {
    if seconds < 60 then SecondsOnly(seconds)
    else
      var minutes, secs := seconds / 60, seconds % 60;
      var hours, mins := minutes / 60, minutes % 60;
      if hours > 0 then HoursMinutes(hours, mins) else MinutesSeconds(mins, secs)
  }
}
