/** The trip list screen: an in-memory list of trips that can be added to,
    deleted from, and marked as the current journey unless the trip's date
    has already passed. */
module Trips {
  import opened Seqs
  import opened Strings

  // ------------------------------------------------------------ calendar

  const MsPerDay: int := 86_400_000

  /** Dates further than this from 1 January 1970 are invalid (`TimeClip`). */
  const MaxTime: int := 8_640_000_000_000_000

  /** The span of years this model reasons about; all of it lies inside `MaxTime`. */
  const MaxYear: int := 270_000

  const MonthNames: seq<string> :=
    ["January", "February", "March", "April", "May", "June",
     "July", "August", "September", "October", "November", "December"]

  predicate IsLeapYear(y: int)
  {
    y % 4 == 0 && (y % 100 != 0 || y % 400 == 0)
  }

  function DaysInYear(y: int): int
  {
    if IsLeapYear(y) then 366 else 365
  }

  function DaysInMonth(y: int, m: int): int
    requires 0 <= m < 12
  {
    if m == 1 then (if IsLeapYear(y) then 29 else 28)
    else if m == 3 || m == 5 || m == 8 || m == 10 then 30
    else 31
  }

  /** Days from 1 January to the first of month `m` (0-based) of year `y`. */
  function DaysBeforeMonth(y: int, m: int): int
    requires 0 <= m <= 12
  {
    [0, 31, 59, 90, 120, 151, 181, 212, 243, 273, 304, 334, 365][m] + (if m >= 2 && IsLeapYear(y) then 1 else 0)
  }

  /** Days from 1 January of year 0 to 1 January of year `y` (proleptic Gregorian). */
  function DaysBeforeYear(y: int): int
  {
    365 * y + (y + 3) / 4 - (y + 99) / 100 + (y + 399) / 400
  }

  /** The day number of `new Date(y, m, d)` counted from 1 January of year 0;
      a day outside the month simply runs on into the next ones. */
  function DayNumber(y: int, m: int, d: int): int
    requires 0 <= m < 12
  {
    DaysBeforeYear(y) + DaysBeforeMonth(y, m) + d - 1
  }

  /** 1 January 1970, where JavaScript time values start. */
  const EpochDay: int := 719_528

  /** A reading of the device clock: local calendar date, month 0-based, and
      milliseconds since midnight. */
  datatype Clock = Clock(year: int, month: int, day: int, msOfDay: int)

  predicate ValidDate(y: int, m: int, d: int)
  {
    0 <= y <= MaxYear && 0 <= m < 12 && 1 <= d <= DaysInMonth(y, m)
  }

  predicate ValidClock(now: Clock)
  {
    ValidDate(now.year, now.month, now.day) && 0 <= now.msOfDay < MsPerDay
  }

  /** The time value of `new Date()`. */
  function NowTime(now: Clock): (t: int)
    requires 0 <= now.month < 12
    ensures 0 <= now.msOfDay < MsPerDay ==>
              t / MsPerDay + EpochDay == DayNumber(now.year, now.month, now.day) && t % MsPerDay == now.msOfDay
  {
    (DayNumber(now.year, now.month, now.day) - EpochDay) * MsPerDay + now.msOfDay
  }

  /** The year `new Date` uses: 0 to 99 stand for 1900 to 1999. */
  function FullYear(year: int): (y: int)
    ensures 0 <= year <= 99 ==> y == 1900 + year
    ensures !(0 <= year <= 99) ==> y == year
  {
    if 0 <= year <= 99 then 1900 + year else year
  }

  /** `new Date(year, month, day)` with the two-digit-year rule; `None` is an
      Invalid Date. A real calendar date always gives its midnight. */
  function MidnightTime(year: Option<int>, month: nat, day: Option<int>): (r: Option<int>)
    requires month < 12
    ensures year.None? || day.None? ==> r.None?
    ensures r.Some? ==> -MaxTime <= r.value <= MaxTime && r.value % MsPerDay == 0
    ensures year.Some? && day.Some? && ValidDate(FullYear(year.value), month, day.value) ==>
              r.Some? && r.value / MsPerDay + EpochDay == DayNumber(FullYear(year.value), month, day.value)
  {
    if year.None? || day.None? then None
    else
      var y := FullYear(year.value);
      var t := (DayNumber(y, month, day.value) - EpochDay) * MsPerDay;
      assert ValidDate(y, month, day.value) ==> -MaxTime <= t <= MaxTime by {
        if ValidDate(y, month, day.value) {
          MidnightTimeValid(y, month, day.value);
        }
      }
      if -MaxTime <= t <= MaxTime then Some(t) else None
  }

  /** Years 0 to 99 are read as 1900 to 1999. */
  lemma TwoDigitYear(y: int, m: nat, d: int)
    requires 0 <= y <= 99 && m < 12
    ensures MidnightTime(Some(y), m, Some(d)) == MidnightTime(Some(1900 + y), m, Some(d))
  {
  }

  /** `monthNames.indexOf(month)`, with `None` for -1. */
  function MonthIndex(name: string): (r: Option<nat>)
    ensures r.Some? ==> r.value < 12 && MonthNames[r.value] == name
    ensures r.None? <==> name !in MonthNames
  {
    var i := IndexOf(MonthNames, name);
    if i < 0 then None else Some(i)
  }

  /** `isPastJourney`: split the text at spaces into day, month word and year;
      an unknown month word is never past; otherwise the date's midnight is
      compared with the clock (an unreadable day or year gives an Invalid
      Date, which compares false). */
  function IsPastJourney(dateString: string, now: Clock): (past: bool)
    requires ValidClock(now)
    ensures past ==> |Split(dateString)| > 1 && Split(dateString)[1] in MonthNames
    ensures past ==> |Split(dateString)| > 2 && ParseInt(Split(dateString)[0]).Some? &&
                     ParseInt(Split(dateString)[2]).Some?
  {
    var parts := Split(dateString);
    var monthIndex := if |parts| > 1 then MonthIndex(parts[1]) else None;
    if monthIndex.None? then false
    else
      var year := if |parts| > 2 then ParseInt(parts[2]) else None;
      BeforeNow(MidnightTime(year, monthIndex.value, ParseInt(parts[0])), now)
  }

  /** `tripDate < today`: an Invalid Date compares false, and a midnight is
      before now exactly when its day is earlier than today, or is today and
      the day has begun. */
  function BeforeNow(tripDate: Option<int>, now: Clock): (b: bool)
    requires ValidClock(now)
    ensures tripDate.None? ==> !b
    ensures tripDate.Some? && tripDate.value % MsPerDay == 0 ==>
              var day, today := tripDate.value / MsPerDay + EpochDay, DayNumber(now.year, now.month, now.day);
              (b <==> day < today || (day == today && now.msOfDay > 0))
  {
    tripDate.Some? && tripDate.value < NowTime(now)
  }

  /** The month word must be one of the twelve English month names, spelled
      with a capital, for a date to count as past. */
  lemma PastNeedsMonthName(dateString: string, now: Clock)
    requires ValidClock(now)
    requires IsPastJourney(dateString, now)
    ensures exists m :: 0 <= m < 12 && |Split(dateString)| > 1 && Split(dateString)[1] == MonthNames[m]
  {
    var parts := Split(dateString);
    var m := MonthIndex(parts[1]).value;
    assert parts[1] == MonthNames[m];
  }

  // ------------------------------------------ calendar order, proved

  predicate DateBefore(y1: int, m1: int, d1: int, y2: int, m2: int, d2: int)
  {
    y1 < y2 || (y1 == y2 && (m1 < m2 || (m1 == m2 && d1 < d2)))
  }

  lemma YearLength(y: int)
    ensures DaysBeforeYear(y + 1) == DaysBeforeYear(y) + DaysInYear(y)
  {
    QuotientSteps(y);
    LeapByDivisors(y);
  }

  /** A quotient by 4, 100 or 400 steps up exactly when `y` is a multiple of the divisor. */
  lemma QuotientSteps(y: int)
    ensures (y + 4) / 4 == (y + 3) / 4 + (if y % 4 == 0 then 1 else 0)
    ensures (y + 100) / 100 == (y + 99) / 100 + (if y % 100 == 0 then 1 else 0)
    ensures (y + 400) / 400 == (y + 399) / 400 + (if y % 400 == 0 then 1 else 0)
  {
    QuotientStep(y, 4);
    QuotientStep(y, 100);
    QuotientStep(y, 400);
  }

  lemma QuotientStep(y: int, k: int)
    requires k == 4 || k == 100 || k == 400
    ensures (y + k) / k == (y + k - 1) / k + (if y % k == 0 then 1 else 0)
  {
    var q, r := y / k, y % k;
    assert y == k * q + r && 0 <= r < k;
    assert (y + k) / k == q + 1 by {
      assert y + k == k * (q + 1) + r;
    }
    if r == 0 {
      assert y + k - 1 == k * q + (k - 1);
    } else {
      assert y + k - 1 == k * (q + 1) + (r - 1);
    }
  }

  /** The leap-year rule as a sum over the three divisors. */
  lemma LeapByDivisors(y: int)
    ensures DaysInYear(y) == 365 + (if y % 4 == 0 then 1 else 0) - (if y % 100 == 0 then 1 else 0) +
                             (if y % 400 == 0 then 1 else 0)
  {
    if y % 100 == 0 {
      assert y == 4 * (25 * (y / 100));
    }
    if y % 400 == 0 {
      assert y == 100 * (4 * (y / 400));
    }
  }

  lemma {:induction false} YearsAfter(y: int, y': int)
    requires y < y'
    ensures DaysBeforeYear(y) + DaysInYear(y) <= DaysBeforeYear(y')
    decreases y' - y
  {
    YearLength(y);
    if y + 1 < y' {
      YearsAfter(y + 1, y');
    }
  }

  lemma MonthLength(y: int, m: int)
    requires 0 <= m < 12
    ensures DaysBeforeMonth(y, m + 1) == DaysBeforeMonth(y, m) + DaysInMonth(y, m)
  {
  }

  lemma {:induction false} MonthsAfter(y: int, m: int, m': int)
    requires 0 <= m < m' <= 12
    ensures DaysBeforeMonth(y, m) + DaysInMonth(y, m) <= DaysBeforeMonth(y, m')
    decreases m' - m
  {
    MonthLength(y, m);
    if m + 1 < m' {
      MonthsAfter(y, m + 1, m');
    }
  }

  /** On real calendar dates the day number follows calendar order. */
  lemma DayNumberOrdered(y1: int, m1: int, d1: int, y2: int, m2: int, d2: int)
    requires ValidDate(y1, m1, d1) && ValidDate(y2, m2, d2)
    requires DateBefore(y1, m1, d1, y2, m2, d2)
    ensures DayNumber(y1, m1, d1) < DayNumber(y2, m2, d2)
  {
    if y1 < y2 {
      MonthsAfter(y1, m1, 12);
      YearsAfter(y1, y2);
      assert DayNumber(y1, m1, d1) < DaysBeforeYear(y1) + DaysInYear(y1);
    } else if m1 < m2 {
      MonthsAfter(y1, m1, m2);
    }
  }

  lemma MidnightTimeValid(y: int, m: int, d: int)
    requires ValidDate(y, m, d)
    ensures -MaxTime <= (DayNumber(y, m, d) - EpochDay) * MsPerDay <= MaxTime
  {
    assert 0 <= DaysBeforeMonth(y, m) <= 366;
  }

  /** A date written "D Month YYYY" (day and year in decimal digits, a year
      of at least three digits' value so that the two-digit rule does not
      apply) is past exactly when its midnight is before the clock: when the
      date comes before today, or is today and the day has begun. */
  lemma PastIffBeforeNow(dayText: string, m: nat, yearText: string, now: Clock)
    requires m < 12 && ValidClock(now)
    requires dayText != [] && AllDigits(dayText) && yearText != [] && AllDigits(yearText)
    requires 100 <= ValueOf(yearText) && ValidDate(ValueOf(yearText), m, ValueOf(dayText))
    ensures var y, d := ValueOf(yearText), ValueOf(dayText);
            IsPastJourney(dayText + " " + MonthNames[m] + " " + yearText, now) <==>
            DateBefore(y, m, d, now.year, now.month, now.day) ||
            ((y, m, d) == (now.year, now.month, now.day) && now.msOfDay > 0)
  {
    var y, d := ValueOf(yearText), ValueOf(dayText);
    MonthNameFacts(m);
    ParseWrittenDate(dayText, MonthNames[m], m, yearText, now);
    MidnightBeforeNow(y, m, d, now);
  }

  /** Reading "D Month YYYY" back gives the day, the month and the year. */
  lemma ParseWrittenDate(dayText: string, name: string, m: nat, yearText: string, now: Clock)
    requires m < 12 && ValidClock(now) && MonthIndex(name) == Some(m) && ' ' !in name
    requires dayText != [] && AllDigits(dayText) && yearText != [] && AllDigits(yearText)
    ensures var y, d := ValueOf(yearText), ValueOf(dayText);
            IsPastJourney(dayText + " " + name + " " + yearText, now) == BeforeNow(MidnightTime(Some(y), m, Some(d)), now)
  {
    SplitThree(dayText, name, yearText);
    ParseIntDigits(dayText);
    ParseIntDigits(yearText);
  }

  /** Each month name is found at its own index and holds no space. */
  lemma MonthNameFacts(m: nat)
    requires m < 12
    ensures MonthIndex(MonthNames[m]) == Some(m) && ' ' !in MonthNames[m]
  {
    MonthNamesDistinct(m);
    MonthNameHasNoSpace(MonthNames[m]);
  }

  lemma MonthNameHasNoSpace(name: string)
    requires name in MonthNames
    ensures ' ' !in name
  {
  }

  /** The midnight of a real date is before the clock exactly when the date
      comes before today, or is today and the day has begun. */
  lemma MidnightBeforeNow(y: int, m: nat, d: int, now: Clock)
    requires 100 <= y && ValidDate(y, m, d) && ValidClock(now)
    ensures MidnightTime(Some(y), m, Some(d)).Some?
    ensures BeforeNow(MidnightTime(Some(y), m, Some(d)), now) <==>
            DateBefore(y, m, d, now.year, now.month, now.day) ||
            ((y, m, d) == (now.year, now.month, now.day) && now.msOfDay > 0)
  {
    MidnightTimeValid(y, m, d);
    if DateBefore(y, m, d, now.year, now.month, now.day) {
      DayNumberOrdered(y, m, d, now.year, now.month, now.day);
    } else if (y, m, d) != (now.year, now.month, now.day) {
      DayNumberOrdered(now.year, now.month, now.day, y, m, d);
    }
  }

  lemma MonthNamesDistinct(m: nat)
    requires m < 12
    ensures IndexOf(MonthNames, MonthNames[m]) == m
  {
    var r := IndexOf(MonthNames, MonthNames[m]);
    if r < m {
      MonthNamesDiffer(r, m);
    }
  }

  lemma MonthNamesDiffer(i: nat, j: nat)
    requires i < j < 12
    ensures MonthNames[i] != MonthNames[j]
  {
    assert |MonthNames[i]| != |MonthNames[j]| || MonthNames[i][0] != MonthNames[j][0] ||
           MonthNames[i][2] != MonthNames[j][2];
  }

  lemma SplitThree(a: string, b: string, c: string)
    requires ' ' !in a && ' ' !in b && ' ' !in c
    ensures Split(a + " " + b + " " + c) == [a, b, c]
  {
    SplitAfterWord(a, b + " " + c);
    assert a + " " + b + " " + c == a + " " + (b + " " + c);
    SplitAfterWord(b, c);
    SplitWord(c);
  }

  /** A 2023 date is past in 2025 (the date is written in pieces only so
      that the verifier does not evaluate the whole text at once). */
  lemma PastExample()
    ensures IsPastJourney("01" + " " + "February" + " " + "2023", Clock(2025, 9, 15, 0))
  {
    DigitsExamples();
    PastIffBeforeNow("01", 1, "2023", Clock(2025, 9, 15, 0));
  }

  /** 25 December 2025 is not yet past at 10:00 on 15 October 2025. */
  lemma FutureExample()
    ensures !IsPastJourney("25" + " " + "December" + " " + "2025", Clock(2025, 9, 15, 36_000_000))
  {
    DigitsExamples();
    PastIffBeforeNow("25", 11, "2025", Clock(2025, 9, 15, 36_000_000));
  }

  lemma DigitsExamples()
    ensures AllDigits("01") && ValueOf("01") == 1
    ensures AllDigits("25") && ValueOf("25") == 25
    ensures AllDigits("1") && ValueOf("1") == 1
    ensures AllDigits("2023") && ValueOf("2023") == 2023
    ensures AllDigits("2025") && ValueOf("2025") == 2025
    ensures AllDigits("2030") && ValueOf("2030") == 2030
  {
    assert "01"[..1] == "0" && "25"[..1] == "2" && "1"[..0] == "";
    assert "2023"[..3] == "202" && "2025"[..3] == "202" && "2030"[..3] == "203";
    assert "202"[..2] == "20" && "203"[..2] == "20" && "20"[..1] == "2";
  }

  // ---------------------------------------------------------------- trips

  datatype Trip = Trip(id: int, title: string, date: string, isCurrent: bool, destination: string, description: string)

  /** The trips the screen starts with. */
  const InitialTrips: seq<Trip> :=
    [ Trip(1, "Current Journey", "25 December 2025", true, "Puri, Odisha", "Beach trip with family"),
      Trip(2, "Trip to Puri", "10 January 2024", false, "Puri, Odisha", "Temple visit"),
      Trip(3, "Weekend Getaway", "01 February 2023", false, "Konark, Odisha", "Past trip example")
    ]

  /** `[...trips, newTrip]` with the new trip's id one more than the list length. */
  function WithTripAdded(trips: seq<Trip>, title: string, date: string, destination: string, description: string): (r: seq<Trip>)
    ensures |r| == |trips| + 1 && r[..|trips|] == trips
    ensures r[|trips|] == Trip(|trips| + 1, title, date, false, destination, description)
  {
    trips + [Trip(|trips| + 1, title, date, false, destination, description)]
  }

  /** `trips.filter(trip => trip.id !== id)`. */
  function WithoutTrip(trips: seq<Trip>, id: int): (r: seq<Trip>)
    ensures forall t :: t in r <==> t in trips && t.id != id
    ensures IsSubseq(r, trips)
  {
    Filter(trips, (t: Trip) => t.id != id)
  }

  /** `trips.map(trip => ({...trip, isCurrent: trip.id === id}))`. */
  function MarkedCurrent(trips: seq<Trip>, id: int): (r: seq<Trip>)
    ensures |r| == |trips|
    ensures forall i :: 0 <= i < |r| ==>
              r[i].(isCurrent := false) == trips[i].(isCurrent := false) && (r[i].isCurrent <==> trips[i].id == id)
  {
    seq(|trips|, i requires 0 <= i < |trips| => trips[i].(isCurrent := trips[i].id == id))
  }

  predicate UniqueIds(trips: seq<Trip>)
  {
    forall i, j :: 0 <= i < j < |trips| ==> trips[i].id != trips[j].id
  }

  predicate AtMostOneCurrent(trips: seq<Trip>)
  {
    forall i, j :: 0 <= i < j < |trips| ==> !(trips[i].isCurrent && trips[j].isCurrent)
  }

  /** Deleting removes exactly the trips with that id and keeps the others in order. */
  lemma DeleteRemovesExactly(trips: seq<Trip>, id: int)
    ensures IsSubseq(WithoutTrip(trips, id), trips)
    ensures forall t :: t in WithoutTrip(trips, id) <==> t in trips && t.id != id
    ensures |WithoutTrip(trips, id)| == |trips| - Count(trips, (t: Trip) => t.id == id)
  {
    CountSplit(trips, (t: Trip) => t.id != id, (t: Trip) => t.id == id);
  }

  lemma {:induction false} CountSplit<T>(s: seq<T>, p: T -> bool, q: T -> bool)
    requires forall x :: q(x) == !p(x)
    ensures Count(s, p) + Count(s, q) == |s|
  {
    if s != [] {
      CountSplit(s[1..], p, q);
    }
  }

  /** With unique ids, marking a trip current leaves at most one current
      trip, and one exactly when some trip has that id. */
  lemma MarkCurrentUnique(trips: seq<Trip>, id: int)
    requires UniqueIds(trips)
    ensures AtMostOneCurrent(MarkedCurrent(trips, id))
    ensures (exists i :: 0 <= i < |trips| && MarkedCurrent(trips, id)[i].isCurrent) <==>
            (exists i :: 0 <= i < |trips| && trips[i].id == id)
  {
  }

  /** Adding a trip never adds a current one, so it keeps at most one current trip. */
  lemma AddKeepsAtMostOne(trips: seq<Trip>, title: string, date: string, destination: string, description: string)
    requires AtMostOneCurrent(trips)
    ensures AtMostOneCurrent(WithTripAdded(trips, title, date, destination, description))
  {
  }

  /** Adding to a list with unique ids keeps them unique exactly when no trip
      already has the new id, one more than the list length. */
  lemma AddKeepsUniqueIdsIff(trips: seq<Trip>, title: string, date: string, destination: string, description: string)
    requires UniqueIds(trips)
    ensures UniqueIds(WithTripAdded(trips, title, date, destination, description)) <==>
            forall i :: 0 <= i < |trips| ==> trips[i].id != |trips| + 1
  {
    var r := WithTripAdded(trips, title, date, destination, description);
    if !forall i :: 0 <= i < |trips| ==> trips[i].id != |trips| + 1 {
      var i :| 0 <= i < |trips| && trips[i].id == |trips| + 1;
      assert r[i].id == r[|trips|].id;
    }
  }

  /** Deleting keeps both invariants: the trips left are trips of the old list,
      in the same order. */
  lemma DeleteKeepsInvariants(trips: seq<Trip>, id: int)
    ensures UniqueIds(trips) ==> UniqueIds(WithoutTrip(trips, id))
    ensures AtMostOneCurrent(trips) ==> AtMostOneCurrent(WithoutTrip(trips, id))
  {
    var keep := (t: Trip) => t.id != id;
    var distinctIds := (a: Trip, b: Trip) => a.id != b.id;
    var notBothCurrent := (a: Trip, b: Trip) => !(a.isCurrent && b.isCurrent);
    if UniqueIds(trips) {
      assert Pairwise(trips, distinctIds);
      FilterPairwise(trips, keep, distinctIds);
      assert Pairwise(WithoutTrip(trips, id), distinctIds);
    }
    if AtMostOneCurrent(trips) {
      assert Pairwise(trips, notBothCurrent);
      FilterPairwise(trips, keep, notBothCurrent);
      assert Pairwise(WithoutTrip(trips, id), notBothCurrent);
    }
  }

  /** While no trip has been deleted the ids are 1..n, and adding keeps them so. */
  lemma AddKeepsSequentialIds(trips: seq<Trip>, title: string, date: string, destination: string, description: string)
    requires forall i :: 0 <= i < |trips| ==> trips[i].id == i + 1
    ensures var r := WithTripAdded(trips, title, date, destination, description);
            (forall i :: 0 <= i < |r| ==> r[i].id == i + 1) && UniqueIds(r)
  {
  }

  /** Ids are not kept unique: delete trip 1 from the initial list, add a
      trip, and the new trip gets id 3, which trip 3 already has; marking
      trip 3 current then leaves two current trips. */
  lemma IdReuseAfterDelete()
    ensures var afterDelete := WithoutTrip(InitialTrips, 1);
            var afterAdd := WithTripAdded(afterDelete, "Goa", "1 January 2030", "Goa", "");
            UniqueIds(InitialTrips) && !UniqueIds(afterAdd) &&
            !AtMostOneCurrent(MarkedCurrent(afterAdd, 3))
  {
    var afterDelete := WithoutTrip(InitialTrips, 1);
    assert afterDelete == InitialTrips[1..] by {
      assert InitialTrips[1..] == [InitialTrips[1], InitialTrips[2]];
    }
    var afterAdd := WithTripAdded(afterDelete, "Goa", "1 January 2030", "Goa", "");
    assert afterAdd[1].id == 3 && afterAdd[2].id == 3;
    var marked := MarkedCurrent(afterAdd, 3);
    assert marked[1].isCurrent && marked[2].isCurrent;
  }

  /** The added trip's date is in the future, so setting it current is allowed. */
  lemma GoaDateNotPast()
    ensures !IsPastJourney("1" + " " + "January" + " " + "2030", Clock(2025, 9, 15, 0))
  {
    DigitsExamples();
    PastIffBeforeNow("1", 0, "2030", Clock(2025, 9, 15, 0));
  }

  // ------------------------------------------------------------- screen

  datatype Notice = MissingFields | TripAdded | TripDeleted | PastTripRejected | CurrentTripSet

  /** The screen's trip list and the add-trip form. */
  class TripScreen {
    var trips: seq<Trip>
    var newTripTitle: string
    var newTripDate: string
    var newTripDestination: string
    var newTripDescription: string

    constructor ()
      ensures trips == InitialTrips
      ensures newTripTitle == "" && newTripDate == "" && newTripDestination == "" && newTripDescription == ""
    {
      trips := InitialTrips;
      newTripTitle, newTripDate, newTripDestination, newTripDescription := "", "", "", "";
    }

    /** Typing into the four fields of the add-trip form. */
    method EditForm(title: string, date: string, destination: string, description: string)
      modifies this
      ensures trips == old(trips)
      ensures newTripTitle == title && newTripDate == date
      ensures newTripDestination == destination && newTripDescription == description
    {
      newTripTitle, newTripDate, newTripDestination, newTripDescription := title, date, destination, description;
    }

    /** `handleAddTrip`: with a required field empty nothing changes; otherwise
        the trip is appended and the form cleared. */
    method AddTrip() returns (notice: Notice)
      modifies this
      ensures var missing := old(newTripTitle) == "" || old(newTripDate) == "" || old(newTripDestination) == "";
              notice == (if missing then MissingFields else TripAdded)
      ensures notice == MissingFields ==>
                trips == old(trips) && newTripTitle == old(newTripTitle) && newTripDate == old(newTripDate) &&
                newTripDestination == old(newTripDestination) && newTripDescription == old(newTripDescription)
      ensures notice == TripAdded ==>
                trips == WithTripAdded(old(trips), old(newTripTitle), old(newTripDate),
                                       old(newTripDestination), old(newTripDescription)) &&
                newTripTitle == "" && newTripDate == "" && newTripDestination == "" && newTripDescription == ""
    {
      if newTripTitle == "" || newTripDate == "" || newTripDestination == "" {
        return MissingFields;
      }
      trips := WithTripAdded(trips, newTripTitle, newTripDate, newTripDestination, newTripDescription);
      newTripTitle, newTripDate, newTripDestination, newTripDescription := "", "", "", "";
      notice := TripAdded;
    }

    /** `handleDeleteTrip`, once the user confirms. */
    method DeleteTrip(id: int) returns (notice: Notice)
      modifies this`trips
      ensures notice == TripDeleted
      ensures trips == WithoutTrip(old(trips), id)
    {
      trips := WithoutTrip(trips, id);
      notice := TripDeleted;
    }

    /** `handleSetCurrent`: refused for a past date, otherwise every trip with
        that id becomes current and every other trip stops being current. */
    method SetCurrent(id: int, date: string, now: Clock) returns (notice: Notice)
      requires ValidClock(now)
      modifies this`trips
      ensures notice == (if IsPastJourney(date, now) then PastTripRejected else CurrentTripSet)
      ensures trips == (if IsPastJourney(date, now) then old(trips) else MarkedCurrent(old(trips), id))
    {
      if IsPastJourney(date, now) {
        return PastTripRejected;
      }
      trips := MarkedCurrent(trips, id);
      notice := CurrentTripSet;
    }
  }
}
