/** Quiet hours: when the sender must stay silent, and until when it defers. */
module QuietHours {
  import opened LocalTime

  /** The two times of day from the owner's settings. */
  datatype Window = Window(start: int, end: int)

  ghost predicate ValidWindow(w: Window) {
    0 <= w.start < DAY && 0 <= w.end < DAY
  }

  predicate IsQuietClock(clock: int, w: Window) {
    if w.start < w.end then w.start <= clock < w.end
    else clock >= w.start || clock < w.end
  }

  predicate IsQuiet(t: int, offset: int, w: Window) {
    IsQuietClock(TimeOfDay(t, offset), w)
  }

  /** Quiet hours are the part of the daily round from the start, which is quiet, to the
      end, which is not; with equal ends they are the whole round. */
  lemma QuietIsArc(clock: int, w: Window)
    requires ValidWindow(w) && 0 <= clock < DAY
    ensures var length := if w.start == w.end then DAY else (w.end - w.start) % DAY;
            IsQuietClock(clock, w) <==> (clock - w.start) % DAY < length
  {}

  /** The instant to which a reminder due at the quiet instant `t` is moved.
      Only the hour and minute of the end of the window are used. */
  function QuietHoursEnd(t: int, offset: int, w: Window): (r: int)
    requires 0 <= w.end < DAY
    ensures t < r <= t + DAY
  {
    var target := AtMinuteOf(t, offset, w.end);
    if target <= t then target + DAY else target
  }

  /** `r` is the first instant after `t` at which messages are allowed. */
  ghost predicate FirstAudible(t: int, r: int, offset: int, w: Window) {
    && t < r <= t + DAY
    && !IsQuiet(r, offset, w)
    && forall x :: t <= x < r ==> IsQuiet(x, offset, w)
  }

  /** With distinct ends and a whole-minute end, a quiet instant is deferred to
      the first audible one, in same-day and in midnight-wrapping windows. */
  lemma EndIsFirstAudible(t: int, offset: int, w: Window)
    requires ValidWindow(w) && w.start != w.end && w.end % MINUTE == 0
    requires IsQuiet(t, offset, w)
    ensures FirstAudible(t, QuietHoursEnd(t, offset, w), offset, w)
  {
    var r := QuietHoursEnd(t, offset, w);
    ClockAfter(t, offset, r - t);
    forall x | t <= x < r
      ensures IsQuiet(x, offset, w)
    {
      ClockAfter(t, offset, x - t);
    }
  }

  /** The local clock `d` microseconds later, when that is at most a day. */
  lemma ClockAfter(t: int, offset: int, d: int)
    requires 0 <= d <= DAY
    ensures var c := TimeOfDay(t, offset);
            TimeOfDay(t + d, offset) == if c + d < DAY then c + d else c + d - DAY
  {
    var day := LocalDate(t, offset);
    var c := TimeOfDay(t, offset);
    assert t + offset == day * DAY + c;
    if c + d < DAY {
      Split(day, c + d);
    } else {
      Split(day + 1, c + d - DAY);
    }
  }

  lemma Split(day: int, c: int)
    requires 0 <= c < DAY
    ensures (day * DAY + c) / DAY == day && (day * DAY + c) % DAY == c
  {}

  /** A quiet instant is deferred to the first audible one if and only if the
      window has distinct ends and ends on a whole minute: one condition on the
      settings for every quiet instant. */
  lemma EndIsFirstAudibleExactly(t: int, offset: int, w: Window)
    requires ValidWindow(w) && IsQuiet(t, offset, w)
    ensures FirstAudible(t, QuietHoursEnd(t, offset, w), offset, w) <==> w.start != w.end && w.end % MINUTE == 0
  {
    if w.start != w.end && w.end % MINUTE == 0 {
      EndIsFirstAudible(t, offset, w);
    } else if w.start != w.end {
      EndIsEarlier(t, offset, w);
    }
  }

  /** The quiet hours of a window that ends inside a minute are over when that
      window says so, which is not the instant the reminder is deferred to. */
  lemma EndIsEarlier(t: int, offset: int, w: Window)
    requires ValidWindow(w) && IsQuiet(t, offset, w) && w.start != w.end && w.end % MINUTE != 0
    ensures !FirstAudible(t, QuietHoursEnd(t, offset, w), offset, w)
  {
    var r := QuietHoursEnd(t, offset, w);
    var c := TimeOfDay(t, offset);
    var wait := if c < w.end then w.end - c else w.end + DAY - c;
    ClockAfter(t, offset, wait);
    ClockAfter(t, offset, r - t);
    if t + wait < r {
      assert !IsQuiet(t + wait, offset, w);
    }
  }

  /** Quiet from ten in the evening to half a minute past eight: a reminder due at
      seven is deferred to eight, when it is still quiet. */
  lemma HalfMinuteIsDropped()
    ensures var w := Window(22 * HOUR, 8 * HOUR + 30_000_000);
            && IsQuiet(7 * HOUR, 0, w)
            && QuietHoursEnd(7 * HOUR, 0, w) == 8 * HOUR && IsQuiet(8 * HOUR, 0, w)
  {}
}
