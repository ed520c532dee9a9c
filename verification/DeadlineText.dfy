/** Deadlines as the bot prints them and as it reads them from the owner. */
module DeadlineText {
  import opened Wrappers
  import opened LocalTime
  import opened Digits
  import opened CivilCalendar
  import opened TaskStore

  /** The number of 1 January 1970. */
  const EPOCH_ORDINAL := 719_163

  /** The instant has a local date in the calendar's range. */
  predicate IsRepresentable(t: int, offset: int) {
    1 <= LocalDate(t, offset) + EPOCH_ORDINAL <= MAX_ORDINAL
  }

  function CivilDay(t: int, offset: int): CivilDate
    requires IsRepresentable(t, offset)
  {
    FromOrdinal(LocalDate(t, offset) + EPOCH_ORDINAL)
  }

  /** The day number of a date, counted from the epoch. */
  function DayOf(date: CivilDate): int
    requires IsCivilDate(date)
  {
    Ordinal(date) - EPOCH_ORDINAL
  }

  /******* Printing *******/

  /** Day, month and year; the year is not padded. */
  function FormatDate(date: CivilDate): string
    requires IsCivilDate(date)
  {
    TwoDigits(date.day) + ("." + (TwoDigits(date.month) + ("." + Decimal(date.year))))
  }

  function Hour(t: int, offset: int): (h: int)
    ensures 0 <= h < 24
  {
    TimeOfDay(t, offset) / HOUR
  }

  function MinuteOfHour(t: int, offset: int): (m: int)
    ensures 0 <= m < 60
  {
    TimeOfDay(t, offset) % HOUR / MINUTE
  }

  function FormatTime(h: nat, m: nat): string
    requires h < 100 && m < 100
  {
    TwoDigits(h) + (":" + TwoDigits(m))
  }

  /** The local date and time of an instant, to the minute. */
  function FormatDateTime(t: int, offset: int): string
    requires IsRepresentable(t, offset)
  {
    FormatDate(CivilDay(t, offset)) + (" " + FormatTime(Hour(t, offset), MinuteOfHour(t, offset)))
  }

  /******* Reading *******/

  function StripLeft(s: string): string {
    if s != "" && IsSpace(s[0]) then StripLeft(s[1..]) else s
  }

  function StripRight(s: string): string {
    if s != "" && IsSpace(s[|s| - 1]) then StripRight(s[..|s| - 1]) else s
  }

  function Strip(s: string): string {
    StripRight(StripLeft(s))
  }

  function LowerChar(c: char): char {
    if 'A' <= c <= 'Z' || 'А' <= c <= 'Я' then (c as int + 32) as char else c
  }

  function Lower(s: string): string {
    seq(|s|, i requires 0 <= i < |s| => LowerChar(s[i]))
  }

  /** The number of leading digits, at most `max`. */
  function LeadingDigits(s: string, max: nat): (count: nat)
    ensures count <= |s| && count <= max
    ensures forall i :: 0 <= i < count ==> IsDigit(s[i])
  {
    if max == 0 || s == "" || !IsDigit(s[0]) then 0
    else
      var more := LeadingDigits(s[1..], max - 1);
      assert forall i :: 1 <= i < 1 + more ==> s[i] == s[1..][i - 1];
      1 + more
  }

  /** Reads a number of `min` to `max` digits, as many as there are; answers with
      the number and what follows it. */
  function ScanNumber(s: string, min: nat, max: nat): Option<(nat, string)> {
    var k := LeadingDigits(s, max);
    if k < min then None else Some((Number(s[..k]), s[k..]))
  }

  /** Hours and minutes, up to the end of the text. */
  function ScanTime(s: string): Option<(nat, nat)> {
    match ScanNumber(s, 1, 2)
    case None => None
    case Some((h, rest)) =>
      if rest == "" || rest[0] != ':' then None
      else match ScanNumber(rest[1..], 2, 2)
        case None => None
        case Some((m, rest)) => if rest == "" then Some((h, m)) else None
  }

  /** What may follow a day: nothing, or space and a time. */
  datatype Tail = NoMatch | NoTime | AtTime(hour: nat, minute: nat)

  function ScanTail(s: string): Tail {
    if s == "" then NoTime
    else if !IsSpace(s[0]) then NoMatch
    else match ScanTime(StripLeft(s))
      case None => NoMatch
      case Some((h, m)) => AtTime(h, m)
  }

  predicate IsSeparator(c: char) {
    c == '.' || c == '/' || c == '-'
  }

  /** Day, month and year with separators, and what may follow them. */
  function ScanDate(s: string): Option<(nat, nat, nat, Tail)> {
    match ScanNumber(s, 1, 2)
    case None => None
    case Some((d, s1)) =>
      if s1 == "" || !IsSeparator(s1[0]) then None
      else match ScanNumber(s1[1..], 1, 2)
        case None => None
        case Some((m, s2)) =>
          if s2 == "" || !IsSeparator(s2[0]) then None
          else match ScanNumber(s2[1..], 4, 4)
            case None => None
            case Some((y, s3)) =>
              if ScanTail(s3).NoMatch? then None else Some((d, m, y, ScanTail(s3)))
  }

  /** The word a relative deadline starts with: days from today, and the rest. */
  function ScanDayWord(s: string): Option<(nat, string)> {
    if "сегодня" <= s then Some((0, s[|"сегодня"|..]))
    else if "завтра" <= s then Some((1, s[|"завтра"|..]))
    else if "послезавтра" <= s then Some((2, s[|"послезавтра"|..]))
    else None
  }

  function AtExactly(dueAt: int): Patch {
    NoChange.(dueAt := Set(Some(dueAt)), dueDate := Set(None), duePrecision := Set(Some(Exact)))
  }

  function OnDate(day: int): Patch {
    NoChange.(dueAt := Set(None), dueDate := Set(Some(day)), duePrecision := Set(Some(DuePrecision.Date)))
  }

  function ClockOn(day: int, h: nat, m: nat, offset: int): Option<Patch> {
    if h >= 24 || m >= 60 then None
    else Some(AtExactly(day * DAY + h * HOUR + m * MINUTE - offset))
  }

  /** The time after a day word, or nine in the morning without one. */
  function ClockOrNine(day: int, tail: Tail, offset: int): Option<Patch> {
    match tail
    case AtTime(h, m) => ClockOn(day, h, m, offset)
    case _ => ClockOn(day, 9, 0, offset)
  }

  /** The update that the owner's text asks for, if it is understood. */
  function ParseDue(text: string, now: int, offset: int): Option<Patch> {
    ParseValue(Lower(Strip(text)), now, offset)
  }

  function ParseValue(value: string, now: int, offset: int): Option<Patch> {
    var word := ScanDayWord(value);
    if word.Some? && !ScanTail(word.value.1).NoMatch? then
      var day := LocalDate(now, offset) + word.value.0;
      ClockOrNine(day, ScanTail(word.value.1), offset)
    else match ScanDate(value)
      case None => None
      case Some((d, m, y, tail)) =>
        if !IsDate(y, m, d) then None
        else
          var day := DayOf(CivilDate(y, m, d));
          match tail
          case AtTime(h, min) => ClockOn(day, h, min, offset)
          case _ => Some(OnDate(day))
  }

  /******* Printing and reading back *******/

  /** Digits followed by something that is not one are read as their number. */
  lemma {:induction false} ScanDigits(ds: string, rest: string, max: nat)
    requires AllDigits(ds) && |ds| <= max
    requires |ds| == max || rest == "" || !IsDigit(rest[0])
    ensures LeadingDigits(ds + rest, max) == |ds|
    ensures (ds + rest)[..|ds|] == ds && (ds + rest)[|ds|..] == rest
    decreases |ds|
  {
    if ds == "" {
      assert ds + rest == rest;
    } else {
      assert (ds + rest)[1..] == ds[1..] + rest;
      ScanDigits(ds[1..], rest, max - 1);
    }
  }

  lemma ScanTwoDigits(n: nat, rest: string, min: nat)
    requires n < 100 && min <= 2
    ensures ScanNumber(TwoDigits(n) + rest, min, 2) == Some((n, rest))
  {
    ScanDigits(TwoDigits(n), rest, 2);
    NumberOfTwoDigits(n);
  }

  lemma ScanYear(y: nat, rest: string)
    requires y <= MAX_YEAR && (rest == "" || !IsDigit(rest[0]))
    ensures ScanNumber(Decimal(y) + rest, 4, 4) == if y >= 1000 then Some((y, rest)) else None
  {
    DecimalLength(y);
    ScanDigits(Decimal(y), rest, 4);
    NumberOfDecimal(y);
  }

  /** A printed date is scanned back, if its year has four digits. */
  lemma ScanFormattedDate(date: CivilDate, rest: string)
    requires IsCivilDate(date) && (rest == "" || !IsDigit(rest[0])) && !ScanTail(rest).NoMatch?
    ensures ScanDate(FormatDate(date) + rest) ==
            if date.year >= 1000 then Some((date.day, date.month, date.year, ScanTail(rest))) else None
  {
    var year := Decimal(date.year) + rest;
    var month := TwoDigits(date.month) + ("." + year);
    assert FormatDate(date) + rest == TwoDigits(date.day) + ("." + month);
    ScanTwoDigits(date.day, "." + month, 1);
    assert ("." + month)[1..] == month;
    ScanTwoDigits(date.month, "." + year, 1);
    assert ("." + year)[1..] == year;
    ScanYear(date.year, rest);
  }

  /** A number below a hundred as the owner may type it, with or without a leading zero. */
  function ShortNumber(n: nat, padded: bool): (s: string)
    requires n < 100
    ensures 1 <= |s| <= 2 && AllDigits(s)
  {
    if padded || n >= 10 then TwoDigits(n) else [DigitChar(n)]
  }

  /** A time as the owner may type it. */
  function TypedTime(h: nat, m: nat, padded: bool): string
    requires h < 100 && m < 100
  {
    ShortNumber(h, padded) + (":" + TwoDigits(m))
  }

  lemma ScanShortNumber(n: nat, padded: bool, rest: string)
    requires n < 100 && rest != "" && !IsDigit(rest[0])
    ensures ScanNumber(ShortNumber(n, padded) + rest, 1, 2) == Some((n, rest))
  {
    if padded || n >= 10 {
      ScanTwoDigits(n, rest, 1);
    } else {
      var digit := [DigitChar(n)];
      ScanDigits(digit, rest, 2);
      assert digit[..0] == "";
      assert Number(digit) == n;
    }
  }

  lemma ScanTypedTime(h: nat, m: nat, padded: bool)
    requires h < 100 && m < 100
    ensures ScanTail(" " + TypedTime(h, m, padded)) == AtTime(h, m)
  {
    var time := TypedTime(h, m, padded);
    assert (" " + time)[1..] == time;
    assert IsDigit(time[0]);
    assert StripLeft(" " + time) == StripLeft(time) == time;
    ScanShortNumber(h, padded, ":" + TwoDigits(m));
    assert (":" + TwoDigits(m))[1..] == TwoDigits(m) + "";
    ScanTwoDigits(m, "", 2);
  }

  predicate IsPrinted(s: string) {
    forall i :: 0 <= i < |s| ==> IsDigit(s[i]) || s[i] == '.' || s[i] == ':' || s[i] == ' '
  }

  /** Printed text is untouched by stripping and lowering, and is no day word. */
  lemma PrintedIsPlain(s: string)
    requires IsPrinted(s) && s != "" && IsDigit(s[0]) && IsDigit(s[|s| - 1])
    ensures Lower(Strip(s)) == s && ScanDayWord(s).None?
  {
    assert StripLeft(s) == s && StripRight(s) == s;
    assert forall i :: 0 <= i < |s| ==> Lower(s)[i] == s[i];
    assert "сегодня"[0] != s[0] && "завтра"[0] != s[0] && "послезавтра"[0] != s[0];
  }

  /** The date of a stored day number, as the bot prints it. */
  function PrintDay(day: int): string
    requires 1 <= day + EPOCH_ORDINAL <= MAX_ORDINAL
  {
    FormatDate(FromOrdinal(day + EPOCH_ORDINAL))
  }

  lemma ReadFormattedDate(date: CivilDate, now: int, offset: int)
    requires IsCivilDate(date)
    ensures ParseDue(FormatDate(date), now, offset) ==
            if date.year >= 1000 then Some(OnDate(DayOf(date))) else None
  {
    var text := FormatDate(date);
    assert IsPrinted(text);
    PrintedIsPlain(text);
    ScanFormattedDate(date, "");
    assert text + "" == text;
  }

  /** A printed date is read back as the same date with DATE precision, exactly
      when its year has four digits; otherwise it is not understood.  The day that
      is stored for a date is printed as that date. */
  lemma DateRoundTrip(date: CivilDate, now: int, offset: int)
    requires IsCivilDate(date)
    ensures ParseDue(FormatDate(date), now, offset) ==
            if date.year < 1000 then None
            else Some(NoChange.(dueAt := Set(None), dueDate := Set(Some(DayOf(date))),
                                duePrecision := Set(Some(DuePrecision.Date))))
    ensures 1 <= DayOf(date) + EPOCH_ORDINAL <= MAX_ORDINAL && PrintDay(DayOf(date)) == FormatDate(date)
  {
    ReadFormattedDate(date, now, offset);
    DateOfOrdinal(date);
  }

  /** Reading a date, printing what is stored and reading it again gives the same
      day, whatever separators, padding or case the owner typed, exactly when the
      stored year has four digits without padding. */
  lemma TypedDateIsStable(text: string, now: int, offset: int, day: int, now': int)
    requires ParseDue(text, now, offset) == Some(OnDate(day))
    ensures 1 <= day + EPOCH_ORDINAL <= MAX_ORDINAL
    ensures ParseDue(PrintDay(day), now', offset) ==
            if FromOrdinal(day + EPOCH_ORDINAL).year >= 1000 then Some(OnDate(day)) else None
  {
    var date := ParsedDate(Lower(Strip(text)), now, offset, day);
    DateOfOrdinal(date);
    assert FromOrdinal(day + EPOCH_ORDINAL) == date;
    DateRoundTrip(date, now', offset);
  }

  /** Text that is read as a day, and not as an instant, names a date of the calendar. */
  lemma ParsedDate(value: string, now: int, offset: int, day: int) returns (date: CivilDate)
    requires ParseValue(value, now, offset) == Some(OnDate(day))
    ensures IsCivilDate(date) && DayOf(date) == day
  {
    var word := ScanDayWord(value);
    assert !(word.Some? && !ScanTail(word.value.1).NoMatch?);
    var (d, m, y, _) := ScanDate(value).value;
    date := CivilDate(y, m, d);
  }

  /** The first day of the year 999 is printed with a three-digit year and not read back. */
  lemma EarlyYearIsNotReadBack(now: int, offset: int)
    ensures FormatDate(CivilDate(999, 1, 1)) == "01.01.999" && ParseDue("01.01.999", now, offset) == None
  {
    assert Decimal(999) == Decimal(99) + "9" == "999";
    assert FormatDate(CivilDate(999, 1, 1)) == "01.01.999";
    DateRoundTrip(CivilDate(999, 1, 1), now, offset);
  }

  lemma ClockOfInstant(t: int, offset: int)
    ensures LocalDate(t, offset) * DAY + Hour(t, offset) * HOUR + MinuteOfHour(t, offset) * MINUTE
         == t + offset - (t + offset) % MINUTE
  {
    var c := TimeOfDay(t, offset);
    assert t + offset == LocalDate(t, offset) * DAY + c;
    assert c == Hour(t, offset) * HOUR + c % HOUR;
    assert c % HOUR == MinuteOfHour(t, offset) * MINUTE + c % HOUR % MINUTE;
    WholeMinutes(LocalDate(t, offset) * 1440 + Hour(t, offset) * 60 + MinuteOfHour(t, offset), c % HOUR % MINUTE);
  }

  lemma WholeMinutes(minutes: int, rest: int)
    requires 0 <= rest < MINUTE
    ensures (minutes * MINUTE + rest) % MINUTE == rest
  {}

  lemma ParsePrinted(date: CivilDate, h: nat, m: nat, now: int, offset: int)
    requires IsCivilDate(date) && h < 24 && m < 60
    ensures ParseDue(FormatDate(date) + (" " + FormatTime(h, m)), now, offset) ==
            if date.year >= 1000 then ClockOn(DayOf(date), h, m, offset) else None
  {
    var tail := " " + FormatTime(h, m);
    var text := FormatDate(date) + tail;
    assert IsPrinted(FormatDate(date)) && IsPrinted(tail);
    PrintedIsPlain(text);
    ScanTypedTime(h, m, true);
    assert FormatTime(h, m) == TypedTime(h, m, true);
    ScanFormattedDate(date, tail);
  }

  /** A printed deadline is read back as the same instant, truncated to the minute,
      with EXACT precision, exactly when its local year has four digits. */
  lemma DateTimeRoundTrip(t: int, now: int, offset: int)
    requires IsRepresentable(t, offset)
    ensures ParseDue(FormatDateTime(t, offset), now, offset) ==
            if CivilDay(t, offset).year < 1000 then None
            else Some(NoChange.(dueAt := Set(Some(t - (t + offset) % MINUTE)), dueDate := Set(None),
                                duePrecision := Set(Some(Exact))))
  {
    ParsePrinted(CivilDay(t, offset), Hour(t, offset), MinuteOfHour(t, offset), now, offset);
    PrintedClock(t, offset);
  }

  lemma PrintedClock(t: int, offset: int)
    requires IsRepresentable(t, offset)
    ensures ClockOn(DayOf(CivilDay(t, offset)), Hour(t, offset), MinuteOfHour(t, offset), offset)
         == Some(AtExactly(t - (t + offset) % MINUTE))
  {
    ClockOfInstant(t, offset);
  }

  function DayWord(k: nat): string
    requires k <= 2
  {
    if k == 0 then "сегодня" else if k == 1 then "завтра" else "послезавтра"
  }

  predicate IsLowerRussian(s: string) {
    forall i :: 0 <= i < |s| ==> 'а' <= s[i] <= 'я'
  }

  lemma WordIsPlain(k: nat, tail: string)
    requires k <= 2 && IsPrinted(tail) && (tail == "" || IsDigit(tail[|tail| - 1]))
    ensures Lower(Strip(DayWord(k) + tail)) == DayWord(k) + tail
    ensures ScanDayWord(DayWord(k) + tail) == Some((k, tail))
  {
    var w := DayWord(k);
    var s := w + tail;
    assert IsLowerRussian(w);
    WordIsUntouched(w, tail);
    assert s[..|w|] == w && s[|w|..] == tail;
    assert s[0] == w[0];
    assert "сегодня"[0] != "завтра"[0] && "сегодня"[0] != "послезавтра"[0];
    assert "завтра"[0] != "послезавтра"[0];
  }

  lemma {:induction false} WordIsUntouched(w: string, tail: string)
    requires w != "" && IsLowerRussian(w)
    requires IsPrinted(tail) && (tail == "" || IsDigit(tail[|tail| - 1]))
    ensures Lower(Strip(w + tail)) == w + tail
  {
    var s := w + tail;
    assert s[0] == w[0];
    assert s[|s| - 1] == if tail == "" then w[|w| - 1] else tail[|tail| - 1];
    assert StripLeft(s) == s && StripRight(s) == s;
    forall i | 0 <= i < |s|
      ensures Lower(s)[i] == s[i]
    {
      assert s[i] == if i < |w| then w[i] else tail[i - |w|];
    }
  }

  lemma {:induction false} ParseWordValue(value: string, k: nat, tail: string, now: int, offset: int)
    requires ScanDayWord(value) == Some((k, tail)) && !ScanTail(tail).NoMatch?
    ensures ParseValue(value, now, offset) == ClockOrNine(LocalDate(now, offset) + k, ScanTail(tail), offset)
  {}

  lemma ParseAfterWord(k: nat, tail: string, now: int, offset: int)
    requires k <= 2 && IsPrinted(tail) && (tail == "" || IsDigit(tail[|tail| - 1])) && !ScanTail(tail).NoMatch?
    ensures ParseDue(DayWord(k) + tail, now, offset)
         == ClockOrNine(LocalDate(now, offset) + k, ScanTail(tail), offset)
  {
    WordIsPlain(k, tail);
    ParseWordValue(DayWord(k) + tail, k, tail, now, offset);
  }

  lemma ParseWordAt(k: nat, h: nat, m: nat, padded: bool, now: int, offset: int)
    requires k <= 2 && h < 100 && m < 100
    ensures ParseDue(DayWord(k) + (" " + TypedTime(h, m, padded)), now, offset)
         == ClockOn(LocalDate(now, offset) + k, h, m, offset)
  {
    ScanTypedTime(h, m, padded);
    var tail := " " + TypedTime(h, m, padded);
    assert IsPrinted(tail);
    ParseAfterWord(k, tail, now, offset);
  }

  lemma ParseWordAlone(k: nat, now: int, offset: int)
    requires k <= 2
    ensures ParseDue(DayWord(k), now, offset) == ClockOn(LocalDate(now, offset) + k, 9, 0, offset)
  {
    ParseAfterWord(k, "", now, offset);
    assert DayWord(k) + "" == DayWord(k);
  }

  /** Today, tomorrow and the day after, at the given time or at nine. */
  lemma RelativeDeadlines(k: nat, h: nat, m: nat, padded: bool, now: int, offset: int)
    requires k <= 2 && h < 100 && m < 100
    ensures ParseDue(DayWord(k), now, offset) == ClockOn(LocalDate(now, offset) + k, 9, 0, offset)
    ensures ParseDue(DayWord(k) + (" " + TypedTime(h, m, padded)), now, offset)
         == ClockOn(LocalDate(now, offset) + k, h, m, offset)
  {
    ParseWordAlone(k, now, offset);
    ParseWordAt(k, h, m, padded, now, offset);
  }

  /** A clock time on a day is a moment, if there is such a time. */
  lemma ClockOnExactly(day: int, h: nat, m: nat, offset: int)
    ensures ClockOn(day, h, m, offset) ==
            if h < 24 && m < 60 then
              Some(NoChange.(dueAt := Set(Some(day * DAY + (h * 60 + m) * MINUTE - offset)), dueDate := Set(None),
                             duePrecision := Set(Some(Exact))))
            else None
  {}

  /******* Typed dates *******/

  /** A date as the owner may type it: one or two digits of day and month, four of the
      year, with full stops, slashes or hyphens between them. */
  function TypedDate(d: nat, m: nat, year: string, a: char, b: char, padded: bool): string
    requires d < 100 && m < 100
  {
    ShortNumber(d, padded) + ([a] + (ShortNumber(m, padded) + ([b] + year)))
  }

  predicate IsFourDigits(year: string) {
    |year| == 4 && AllDigits(year)
  }

  /** Three numbers with separators between them make a date. */
  lemma ScanDateParts(s: string, d: nat, s1: string, m: nat, s2: string, y: nat, s3: string)
    requires ScanNumber(s, 1, 2) == Some((d, s1)) && s1 != "" && s1[0] in {'.', '/', '-'}
    requires ScanNumber(s1[1..], 1, 2) == Some((m, s2)) && s2 != "" && s2[0] in {'.', '/', '-'}
    requires ScanNumber(s2[1..], 4, 4) == Some((y, s3)) && !ScanTail(s3).NoMatch?
    ensures ScanDate(s) == Some((d, m, y, ScanTail(s3)))
  {}

  lemma ScanFourDigits(year: string, rest: string)
    requires IsFourDigits(year)
    ensures ScanNumber(year + rest, 4, 4) == Some((Number(year), rest))
  {
    ScanDigits(year, rest, 4);
  }

  lemma ScanTypedDate(d: nat, m: nat, year: string, a: char, b: char, padded: bool, rest: string)
    requires d < 100 && m < 100 && IsFourDigits(year) && a in {'.', '/', '-'} && b in {'.', '/', '-'}
    requires !ScanTail(rest).NoMatch?
    ensures ScanDate(TypedDate(d, m, year, a, b, padded) + rest) == Some((d, m, Number(year), ScanTail(rest)))
  {
    var s2 := [b] + (year + rest);
    var s1 := [a] + (ShortNumber(m, padded) + s2);
    var s := ShortNumber(d, padded) + s1;
    assert TypedDate(d, m, year, a, b, padded) + rest == s;
    ScanShortNumber(d, padded, s1);
    assert s1[1..] == ShortNumber(m, padded) + s2;
    ScanShortNumber(m, padded, s2);
    assert s2[1..] == year + rest;
    ScanFourDigits(year, rest);
    ScanDateParts(s, d, s1, m, s2, Number(year), rest);
  }

  predicate IsTyped(s: string) {
    forall i :: 0 <= i < |s| ==> IsDigit(s[i]) || s[i] in {'.', '/', '-', ':', ' '}
  }

  lemma TypedIsPlain(s: string)
    requires IsTyped(s) && s != "" && IsDigit(s[0]) && IsDigit(s[|s| - 1])
    ensures Lower(Strip(s)) == s && ScanDayWord(s).None?
  {
    assert StripLeft(s) == s && StripRight(s) == s;
    assert forall i :: 0 <= i < |s| ==> Lower(s)[i] == s[i];
    assert "сегодня"[0] != s[0] && "завтра"[0] != s[0] && "послезавтра"[0] != s[0];
  }

  /** What a scanned date with its tail is read as. */
  lemma ParseScanned(value: string, d: nat, m: nat, y: nat, tail: Tail, now: int, offset: int)
    requires ScanDayWord(value).None? && ScanDate(value) == Some((d, m, y, tail))
    ensures ParseValue(value, now, offset) ==
            if !IsDate(y, m, d) then None
            else if tail.AtTime? then ClockOn(DayOf(CivilDate(y, m, d)), tail.hour, tail.minute, offset)
            else Some(OnDate(DayOf(CivilDate(y, m, d))))
  {}

  lemma ParseTyped(d: nat, m: nat, year: string, a: char, b: char, padded: bool, tail: string, now: int, offset: int)
    requires d < 100 && m < 100 && IsFourDigits(year) && a in {'.', '/', '-'} && b in {'.', '/', '-'}
    requires IsTyped(tail) && (tail == "" || (!IsDigit(tail[0]) && IsDigit(tail[|tail| - 1])))
    requires !ScanTail(tail).NoMatch?
    ensures ParseDue(TypedDate(d, m, year, a, b, padded) + tail, now, offset)
         == ParseValue(TypedDate(d, m, year, a, b, padded) + tail, now, offset)
    ensures ScanDayWord(TypedDate(d, m, year, a, b, padded) + tail).None?
    ensures ScanDate(TypedDate(d, m, year, a, b, padded) + tail) == Some((d, m, Number(year), ScanTail(tail)))
  {
    var text := TypedDate(d, m, year, a, b, padded) + tail;
    assert IsTyped(TypedDate(d, m, year, a, b, padded));
    TypedIsPlain(text);
    ScanTypedDate(d, m, year, a, b, padded, tail);
  }

  /** A typed date is read as that day, if the calendar has it; otherwise it is not
      understood. */
  lemma TypedDateOutcome(d: nat, m: nat, year: string, a: char, b: char, padded: bool, now: int, offset: int)
    requires d < 100 && m < 100 && IsFourDigits(year) && a in {'.', '/', '-'} && b in {'.', '/', '-'}
    ensures ParseDue(TypedDate(d, m, year, a, b, padded), now, offset) ==
            if IsDate(Number(year), m, d) then Some(OnDate(DayOf(CivilDate(Number(year), m, d)))) else None
  {
    var text := TypedDate(d, m, year, a, b, padded);
    assert text + "" == text;
    ParseTyped(d, m, year, a, b, padded, "", now, offset);
    ParseScanned(text, d, m, Number(year), NoTime, now, offset);
  }

  /** With a time it is read as that moment of the day, if the clock has it, too. */
  lemma TypedDateTimeOutcome(d: nat, m: nat, year: string, a: char, b: char, padded: bool, h: nat, minute: nat,
                             now: int, offset: int)
    requires d < 100 && m < 100 && IsFourDigits(year) && a in {'.', '/', '-'} && b in {'.', '/', '-'}
    requires h < 100 && minute < 100
    ensures ParseDue(TypedDate(d, m, year, a, b, padded) + (" " + TypedTime(h, minute, padded)), now, offset) ==
            if !IsDate(Number(year), m, d) then None
            else ClockOn(DayOf(CivilDate(Number(year), m, d)), h, minute, offset)
  {
    var tail := " " + TypedTime(h, minute, padded);
    ScanTypedTime(h, minute, padded);
    assert IsTyped(tail) && !IsDigit(tail[0]) && IsDigit(tail[|tail| - 1]);
    ParseTyped(d, m, year, a, b, padded, tail, now, offset);
    ParseScanned(TypedDate(d, m, year, a, b, padded) + tail, d, m, Number(year), AtTime(h, minute), now, offset);
  }

  /******* Known dates *******/

  /** An instant is printed by its local date and time of day. */
  lemma PrintedAs(t: int, offset: int, date: CivilDate, h: nat, m: nat)
    requires IsCivilDate(date) && h < 24 && m < 60
    requires LocalDate(t, offset) + EPOCH_ORDINAL == Ordinal(date)
    requires Hour(t, offset) == h && MinuteOfHour(t, offset) == m
    ensures IsRepresentable(t, offset)
    ensures FormatDateTime(t, offset) == FormatDate(date) + (" " + FormatTime(h, m))
  {
    DateOfOrdinal(date);
  }

  lemma KnownOrdinals()
    ensures Ordinal(CivilDate(1970, 1, 1)) == 719_163
    ensures Ordinal(CivilDate(2026, 8, 12)) == 739_840
  {
    assert DaysBeforeMonth(2026, 3) == 59;
    assert DaysBeforeMonth(2026, 5) == 120;
    assert DaysBeforeMonth(2026, 7) == 181;
    assert DaysBeforeMonth(2026, 8) == 212;
  }

  lemma KnownYears()
    ensures Decimal(1970) == "1970" && Decimal(2026) == "2026"
  {
    assert Decimal(19) == "19" && Decimal(197) == "197";
    assert Decimal(20) == "20" && Decimal(202) == "202";
  }

  lemma KnownDates()
    ensures FormatDate(CivilDate(1970, 1, 1)) == "01.01.1970"
    ensures FormatDate(CivilDate(2026, 8, 12)) == "12.08.2026"
  {
    KnownYears();
    assert TwoDigits(1) == "01" && TwoDigits(12) == "12" && TwoDigits(8) == "08";
  }

  lemma KnownTimes()
    ensures FormatTime(0, 0) == "00:00" && FormatTime(18, 5) == "18:05"
  {
    assert TwoDigits(0) == "00" && TwoDigits(18) == "18" && TwoDigits(5) == "05";
  }

  lemma KnownTexts()
    ensures FormatDate(CivilDate(1970, 1, 1)) + (" " + FormatTime(0, 0)) == "01.01.1970 00:00"
    ensures FormatDate(CivilDate(2026, 8, 12)) + (" " + FormatTime(18, 5)) == "12.08.2026 18:05"
  {
    KnownDates();
    KnownTimes();
  }

  /** Midnight of the epoch in UTC, and five past six in the evening of 12 August 2026
      in Moscow, three hours ahead of UTC, with the texts above. */
  lemma KnownDeadlines(t: int, offset: int, date: CivilDate)
    requires t == 1_786_547_100_000_000 && offset == 3 * HOUR && date == CivilDate(2026, 8, 12)
    ensures IsRepresentable(t, offset)
    ensures FormatDateTime(t, offset) == FormatDate(date) + (" " + FormatTime(18, 5))
    ensures LocalDate(0, 0) + EPOCH_ORDINAL == Ordinal(CivilDate(1970, 1, 1))
  {
    KnownOrdinals();
    assert LocalDate(t, offset) == 20_677;
    PrintedAs(t, offset, date, 18, 5);
  }
}
