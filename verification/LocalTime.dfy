/** Instants and local wall-clock time.

    An instant is a number of microseconds since the Unix epoch, which is the
    resolution of the program's timestamps.  A zone is a fixed offset from UTC
    in the same unit (Europe/Moscow, the default, is such a zone). */
module LocalTime {
  const MINUTE := 60_000_000
  const HOUR := 3_600_000_000
  const DAY := 86_400_000_000

  /** The local calendar day of `t`, as a day number. */
  function LocalDate(t: int, offset: int): int {
    (t + offset) / DAY
  }

  /** The local time of day of `t`, in microseconds after local midnight. */
  function TimeOfDay(t: int, offset: int): int {
    (t + offset) % DAY
  }

  /** The same local day with the hour and minute of `clock`, and with seconds
      and microseconds set to zero. */
  function AtMinuteOf(t: int, offset: int, clock: int): int {
    LocalDate(t, offset) * DAY + (clock - clock % MINUTE) - offset
  }
}
