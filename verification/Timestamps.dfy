/** Snapshot IDs: UTC times in a fixed-width form, so that the order of strings is
    the order of time. */
module Timestamps {
  import opened Model
  import opened Published
  import opened Repository
  import opened Retention

  /* ---- the calendar ---- */

  predicate Leap(year: nat) {
    year % 4 == 0 && (year % 100 != 0 || year % 400 == 0)
  }

  function DaysIn(year: nat, month: nat): nat {
    if month == 2 then (if Leap(year) then 29 else 28)
    else if month in {4, 6, 9, 11} then 30
    else 31
  }

  /** Days of a year before a month, and from year 0 before a year. */
  function DaysBeforeMonth(year: nat, month: nat): nat {
    if month <= 1 then 0 else DaysBeforeMonth(year, month - 1) + DaysIn(year, month - 1)
  }

  function DaysBeforeYear(year: nat): nat {
    if year == 0 then 0 else DaysBeforeYear(year - 1) + if Leap(year - 1) then 366 else 365
  }

  /** A UTC time of a four-digit year, to the nanosecond. */
  datatype Civil = Civil(year: nat, month: nat, day: nat, hour: nat, minute: nat, second: nat, nanos: nat) {
    predicate Valid() {
      && year < 10_000 && 1 <= month <= 12 && 1 <= day <= DaysIn(year, month)
      && hour < 24 && minute < 60 && second < 60 && nanos < 1_000_000_000
    }

    function DayNumber(): int {
      DaysBeforeYear(year) + DaysBeforeMonth(year, month) + day - 1 - EPOCH
    }

    function Seconds(): nat {
      (hour * 60 + minute) * 60 + second
    }

    /** Nanoseconds since 1970. */
    function Instant(): int {
      DayNumber() * NANOS_PER_DAY + Seconds() * 1_000_000_000 + nanos
    }

    /** The layout 20060102T150405.000000000Z. */
    function Id(): string {
      Digits(year, 4) + (Digits(month, 2) + (Digits(day, 2) + ("T" + (Digits(hour, 2) + (Digits(minute, 2) +
        (Digits(second, 2) + ("." + (Digits(nanos, 9) + "Z"))))))))
    }
  }

  /** 1970-01-01 is day 719528 from 0000-01-01. */
  const EPOCH := 719_528

  function Digit(n: nat): char
    requires n < 10
  {
    '0' + n as char
  }

  /** n in decimal, padded to a width. */
  function Digits(n: nat, width: nat): (s: string)
    ensures |s| == width
  {
    if width == 0 then "" else Digits(n / 10, width - 1) + [Digit(n % 10)]
  }

  function Pow10(width: nat): nat {
    if width == 0 then 1 else 10 * Pow10(width - 1)
  }

  /* ---- fixed-width numbers compare as strings ---- */

  lemma {:induction false} LessConcat(s: string, t: string, x: string, y: string)
    requires |s| == |t|
    ensures Less(s + x, t + y) <==> Less(s, t) || (s == t && Less(x, y))
  {
    if s == "" {
      assert s + x == x && t + y == y;
    } else {
      LessConcat(s[1..], t[1..], x, y);
      assert (s + x)[1..] == s[1..] + x && (t + y)[1..] == t[1..] + y;
      assert s == [s[0]] + s[1..] && t == [t[0]] + t[1..];
    }
  }

  lemma {:induction false} DigitsOrder(m: nat, n: nat, width: nat)
    requires m < Pow10(width) && n < Pow10(width)
    ensures Less(Digits(m, width), Digits(n, width)) <==> m < n
    ensures Digits(m, width) == Digits(n, width) <==> m == n
  {
    if width > 0 {
      DigitsOrder(m / 10, n / 10, width - 1);
      var s, t := Digits(m / 10, width - 1), Digits(n / 10, width - 1);
      LessConcat(s, t, [Digit(m % 10)], [Digit(n % 10)]);
      assert (s + [Digit(m % 10)])[..width - 1] == s && (t + [Digit(n % 10)])[..width - 1] == t;
      assert (s + [Digit(m % 10)])[width - 1] == Digit(m % 10) && (t + [Digit(n % 10)])[width - 1] == Digit(n % 10);
    }
  }

  /** A field in front decides unless it is equal. */
  lemma FieldFirst(m: nat, n: nat, width: nat, x: string, y: string)
    requires m < Pow10(width) && n < Pow10(width)
    ensures Less(Digits(m, width) + x, Digits(n, width) + y) <==> m < n || (m == n && Less(x, y))
  {
    DigitsOrder(m, n, width);
    LessConcat(Digits(m, width), Digits(n, width), x, y);
  }

  /** Earlier by the first field that differs. */
  predicate TimeBefore(a: Civil, b: Civil) {
    || a.hour < b.hour
    || (a.hour == b.hour && (|| a.minute < b.minute
                             || (a.minute == b.minute && (|| a.second < b.second
                                                          || (a.second == b.second && a.nanos < b.nanos)))))
  }

  predicate DateBefore(a: Civil, b: Civil) {
    || a.year < b.year
    || (a.year == b.year && (|| a.month < b.month
                             || (a.month == b.month && a.day < b.day)))
  }

  predicate SameDate(a: Civil, b: Civil) {
    a.year == b.year && a.month == b.month && a.day == b.day
  }

  predicate Before(a: Civil, b: Civil) {
    DateBefore(a, b) || (SameDate(a, b) && TimeBefore(a, b))
  }

  function TimePart(c: Civil): string {
    Digits(c.hour, 2) + (Digits(c.minute, 2) + (Digits(c.second, 2) + ("." + (Digits(c.nanos, 9) + "Z"))))
  }

  lemma Powers()
    ensures Pow10(2) == 100 && Pow10(4) == 10_000 && Pow10(9) == 1_000_000_000
  {
    assert Pow10(4) == 100 * Pow10(2);
    assert Pow10(6) == 100 * Pow10(4);
    assert Pow10(8) == 100 * Pow10(6);
  }

  lemma TimePartOrder(a: Civil, b: Civil)
    requires a.Valid() && b.Valid()
    ensures Less(TimePart(a), TimePart(b)) <==> TimeBefore(a, b)
  {
    hide Less, Digits, Pow10;
    Powers();
    var na, nb := Digits(a.nanos, 9) + "Z", Digits(b.nanos, 9) + "Z";
    LessIrreflexive("Z");
    FieldFirst(a.nanos, b.nanos, 9, "Z", "Z");
    LessIrreflexive(".");
    LessConcat(".", ".", na, nb);
    FieldFirst(a.second, b.second, 2, "." + na, "." + nb);
    var sa, sb := Digits(a.second, 2) + ("." + na), Digits(b.second, 2) + ("." + nb);
    FieldFirst(a.minute, b.minute, 2, sa, sb);
    FieldFirst(a.hour, b.hour, 2, Digits(a.minute, 2) + sa, Digits(b.minute, 2) + sb);
  }

  lemma DateFirst(a: Civil, b: Civil)
    requires a.Valid() && b.Valid()
    ensures Less(a.Id(), b.Id()) <==> Before(a, b)
  {
    hide Less, Digits, Pow10;
    Powers();
    TimePartOrder(a, b);
    LessIrreflexive("T");
    var ta, tb := TimePart(a), TimePart(b);
    LessConcat("T", "T", ta, tb);
    FieldFirst(a.day, b.day, 2, "T" + ta, "T" + tb);
    FieldFirst(a.month, b.month, 2, Digits(a.day, 2) + ("T" + ta), Digits(b.day, 2) + ("T" + tb));
    FieldFirst(a.year, b.year, 4, Digits(a.month, 2) + (Digits(a.day, 2) + ("T" + ta)),
               Digits(b.month, 2) + (Digits(b.day, 2) + ("T" + tb)));
  }

  /* ---- and so does the calendar ---- */

  lemma {:induction false} MonthsGrow(year: nat, m: nat, n: nat)
    requires 1 <= m < n <= 13
    ensures DaysBeforeMonth(year, m) + DaysIn(year, m) <= DaysBeforeMonth(year, n)
    decreases n
  {
    if m < n - 1 {
      MonthsGrow(year, m, n - 1);
    }
  }

  lemma YearLength(year: nat)
    ensures DaysBeforeMonth(year, 13) == if Leap(year) then 366 else 365
  {
    assert DaysBeforeMonth(year, 2) == 31;
    assert DaysBeforeMonth(year, 3) == if Leap(year) then 60 else 59;
    assert DaysBeforeMonth(year, 5) == DaysBeforeMonth(year, 3) + 61;
    assert DaysBeforeMonth(year, 7) == DaysBeforeMonth(year, 5) + 61;
    assert DaysBeforeMonth(year, 9) == DaysBeforeMonth(year, 7) + 62;
    assert DaysBeforeMonth(year, 11) == DaysBeforeMonth(year, 9) + 61;
  }

  lemma {:induction false} YearsGrow(m: nat, n: nat)
    requires m < n
    ensures DaysBeforeYear(m) + DaysBeforeMonth(m, 13) <= DaysBeforeYear(n)
    decreases n
  {
    YearLength(m);
    if m < n - 1 {
      YearsGrow(m, n - 1);
    }
  }

  lemma DatesGrow(a: Civil, b: Civil)
    requires a.Valid() && b.Valid() && DateBefore(a, b)
    ensures a.DayNumber() < b.DayNumber()
  {
    hide DaysBeforeMonth, DaysBeforeYear, DaysIn;
    MonthsGrow(a.year, a.month, 13);
    if a.year < b.year {
      YearsGrow(a.year, b.year);
    } else if a.month < b.month {
      MonthsGrow(a.year, a.month, b.month);
    }
  }

  lemma InstantOrder(a: Civil, b: Civil)
    requires a.Valid() && b.Valid()
    ensures a.Instant() < b.Instant() <==> Before(a, b)
  {
    hide DaysBeforeMonth, DaysBeforeYear, DaysIn;
    if DateBefore(a, b) {
      DatesGrow(a, b);
    } else if DateBefore(b, a) {
      DatesGrow(b, a);
    }
  }

  /** The order of snapshot IDs is the order of time. */
  lemma IdsAreChronological(a: Civil, b: Civil)
    requires a.Valid() && b.Valid()
    ensures Less(a.Id(), b.Id()) <==> a.Instant() < b.Instant()
    ensures a.Id() == b.Id() <==> a.Instant() == b.Instant()
  {
    hide Less, Civil.Id, Civil.Instant, Before;
    DateFirst(a, b);
    DateFirst(b, a);
    InstantOrder(a, b);
    InstantOrder(b, a);
    if a.Id() == b.Id() {
      LessIrreflexive(a.Id());
    } else {
      LessTotal(a.Id(), b.Id());
    }
  }

  /** A list whose IDs are the IDs of the creation times. */
  ghost predicate Stamped(list: seq<Manifest>) {
    forall k :: 0 <= k < |list| ==> IsStamp(list[k])
  }

  ghost predicate IsStamp(m: Manifest) {
    exists c: Civil :: c.Valid() && m.id == c.Id() && m.created == Some(c.Instant())
  }

  /** Snapshots that were named after their creation times are in order of time when
      they are in order of ID, as the retention policy scans them. */
  lemma StampedIsTimeOrdered(list: seq<Manifest>)
    requires Stamped(list) && Descending(list)
    ensures TimeOrdered(Times(list))
  {
    hide Less, Civil.Id, Civil.Instant, Civil.Valid;
    forall j, k | 0 <= j < k < |list|
      ensures Times(list)[j] >= Times(list)[k]
    {
      assert IsStamp(list[j]) && IsStamp(list[k]);
      var a: Civil :| a.Valid() && list[j].id == a.Id() && list[j].created == Some(a.Instant());
      var b: Civil :| b.Valid() && list[k].id == b.Id() && list[k].created == Some(b.Instant());
      IdsAreChronological(b, a);
    }
  }

  /** For them the policy keeps the newest KeepLast snapshots, and of each of the
      latest KeepDaily days and KeepWeekly weeks the newest one, without any
      assumption on the order of times. */
  lemma StampedProtection(p: Policy, list: seq<Manifest>, i: nat)
    requires i < |list| && Stamped(list) && Descending(list)
    ensures var days, weeks := DaysOf(list), WeeksOf(list);
            Protected(p, list, i) <==>
              || i < p.keepLast
              || ((forall j :: 0 <= j < |list| && days[j] == days[i] ==> i <= j)
                  && |Later(days, days[i])| < p.keepDaily)
              || ((forall j :: 0 <= j < |list| && weeks[j] == weeks[i] ==> i <= j)
                  && |Later(weeks, weeks[i])| < p.keepWeekly)
  {
    hide Protected, Stamped, Less;
    StampedIsTimeOrdered(list);
    ProtectedMeansNewest(p, list, i);
  }

  /** The days of the retention policy are calendar dates. */
  lemma DaysAreDates(a: Civil, b: Civil)
    requires a.Valid() && b.Valid()
    ensures Day(a.Instant()) == a.DayNumber()
    ensures Day(a.Instant()) == Day(b.Instant()) <==> SameDate(a, b)
  {
    hide DaysBeforeMonth, DaysBeforeYear, DaysIn;
    DayOf(a);
    DayOf(b);
    if DateBefore(a, b) {
      DatesGrow(a, b);
    } else if DateBefore(b, a) {
      DatesGrow(b, a);
    }
  }

  lemma DayOf(c: Civil)
    requires c.Valid()
    ensures Day(c.Instant()) == c.DayNumber()
  {
    hide DaysBeforeMonth, DaysBeforeYear, DaysIn, Civil.DayNumber;
    var rest := c.Seconds() * 1_000_000_000 + c.nanos;
    assert 0 <= rest < NANOS_PER_DAY;
  }

  lemma {:induction false} YearOf(day: nat) returns (year: nat)
    ensures DaysBeforeYear(year) <= day < DaysBeforeYear(year + 1)
  {
    year := 0;
    if day > 0 {
      year := YearOf(day - 1);
      if day == DaysBeforeYear(year + 1) {
        year := year + 1;
      }
    }
  }

  lemma {:induction false} MonthOf(year: nat, day: nat, upTo: nat) returns (month: nat)
    requires 1 <= upTo <= 12 && day < DaysBeforeMonth(year, upTo + 1)
    ensures 1 <= month <= upTo
    ensures DaysBeforeMonth(year, month) <= day < DaysBeforeMonth(year, month) + DaysIn(year, month)
  {
    if DaysBeforeMonth(year, upTo) <= day {
      return upTo;
    }
    month := MonthOf(year, day, upTo - 1);
  }

  /** Every instant from year 0 to year 9999 has an ID. */
  lemma EveryInstantHasAnId(t: int) returns (c: Civil)
    requires -EPOCH * NANOS_PER_DAY <= t < (DaysBeforeYear(10_000) - EPOCH) * NANOS_PER_DAY
    ensures c.Valid() && c.Instant() == t
  {
    hide DaysBeforeMonth;
    var day, rest := Day(t) + EPOCH, t % NANOS_PER_DAY;
    var year := YearOf(day);
    if year >= 10_000 {
      YearsGrowOrEqual(10_000, year);
    }
    YearLength(year);
    var month := MonthOf(year, day - DaysBeforeYear(year), 12);
    var seconds := rest / 1_000_000_000;
    c := Civil(year, month, day - DaysBeforeYear(year) - DaysBeforeMonth(year, month) + 1,
               seconds / 3600, seconds / 60 % 60, seconds % 60, rest % 1_000_000_000);
    TimeOf(seconds);
    assert c.Seconds() == seconds;
  }

  lemma YearsGrowOrEqual(m: nat, n: nat)
    requires m <= n
    ensures DaysBeforeYear(m) <= DaysBeforeYear(n)
  {
    hide DaysBeforeYear;
    if m < n {
      YearsGrow(m, n);
    }
  }

  lemma TimeOf(seconds: nat)
    requires seconds < 86_400
    ensures (seconds / 3600 * 60 + seconds / 60 % 60) * 60 + seconds % 60 == seconds && seconds / 3600 < 24
  {
    assert seconds / 60 / 60 == seconds / 3600;
  }

  /* ---- ISO weeks ---- */

  /** Days of the week from Monday; 1970-01-01 was a Thursday. */
  function Weekday(day: int): int {
    (day + 3) % 7
  }

  /** The Thursday of the week of a day. */
  function Thursday(day: int): int {
    day - Weekday(day) + 3
  }

  lemma YearExists(day: nat)
    ensures exists year: nat :: DaysBeforeYear(year) <= day < DaysBeforeYear(year + 1)
  {
    var year := YearOf(day);
  }

  ghost function YearOfDay(day: nat): (year: nat)
    ensures DaysBeforeYear(year) <= day < DaysBeforeYear(year + 1)
  {
    YearExists(day);
    var year: nat :| DaysBeforeYear(year) <= day < DaysBeforeYear(year + 1);
    year
  }

  /** `ISOWeek`: the year of the week's Thursday, and the number of that Thursday in
      it. The first days of year 0 belong to the last week of the year before, which
      has 365 days; an offset can move a time of year 0 one day back. */
  ghost function IsoYearWeek(day: int): (int, int)
    requires day >= -EPOCH - 1
  {
    var since := Thursday(day) + EPOCH;
    if since < 0 then (-1, (since + 365) / 7 + 1) else
      var year: int := YearOfDay(since);
      (year, (since - DaysBeforeYear(year)) / 7 + 1)
  }

  lemma WeekIsThursday(t: int)
    ensures Thursday(Day(t)) == 7 * Week(t)
  {}

  /** Two times are in one week of the retention policy exactly when they have the
      same ISO year and week. */
  lemma WeeksAreIsoWeeks(s: int, t: int)
    requires Day(s) >= -EPOCH - 1 && Day(t) >= -EPOCH - 1
    ensures Week(s) == Week(t) <==> IsoYearWeek(Day(s)) == IsoYearWeek(Day(t))
  {
    hide Week, Day, DaysBeforeYear;
    WeekIsThursday(s);
    WeekIsThursday(t);
    hide Thursday;
  }

  /* ---- the latest snapshot ---- */

  /** Every snapshot that is new was published by a backup, under the ID of a time
      of a four-digit year; any may be gone. */
  ghost predicate Evolves(h: Handle, a: Objects, b: Objects) {
    forall id :: id in PublishedIds(h, b) ==> id in PublishedIds(h, a) || IsTimestamp(id)
  }

  ghost predicate IsTimestamp(id: string) {
    exists t: Civil :: t.Valid() && t.Id() == id
  }

  lemma {:induction false} OnlyTimestamps(h: Handle, states: seq<Objects>, n: nat)
    requires n < |states| && PublishedIds(h, states[0]) == {}
    requires forall i :: 0 <= i < n ==> Evolves(h, states[i], states[i + 1])
    ensures forall id :: id in PublishedIds(h, states[n]) ==> IsTimestamp(id)
  {
    hide PublishedIds, IsTimestamp;
    if n > 0 {
      OnlyTimestamps(h, states, n - 1);
      assert Evolves(h, states[n - 1], states[n]);
    }
  }

  /** After any sequence of publications and deletions, the snapshot that
      `LatestSnapshot` returns was created later than every other one that is
      published. */
  lemma LatestIsMostRecent(h: Handle, states: seq<Objects>, n: nat, latest: Manifest)
    requires n < |states| && PublishedIds(h, states[0]) == {}
    requires forall i :: 0 <= i < n ==> Evolves(h, states[i], states[i + 1])
    requires IsLatest(h, states[n], latest)
    ensures exists t: Civil :: t.Valid() && t.Id() == latest.id
    ensures forall t: Civil, u: Civil ::
              (t.Valid() && u.Valid() && t.Id() == latest.id && u.Id() in PublishedIds(h, states[n])
               && u.Id() != latest.id) ==>
                u.Instant() < t.Instant()
    ensures forall id :: id in PublishedIds(h, states[n]) ==> exists u: Civil :: u.Valid() && u.Id() == id
  {
    hide PublishedIds, ReadManifest, Less, Civil.Id, Civil.Instant, Civil.Valid;
    OnlyTimestamps(h, states, n);
    assert IsTimestamp(latest.id);
    forall id | id in PublishedIds(h, states[n])
      ensures exists u: Civil :: u.Valid() && u.Id() == id
    {
      assert IsTimestamp(id);
    }
    forall t: Civil, u: Civil | t.Valid() && u.Valid() && t.Id() == latest.id
      && u.Id() in PublishedIds(h, states[n]) && u.Id() != latest.id
      ensures u.Instant() < t.Instant()
    {
      IdsAreChronological(u, t);
    }
  }
}
