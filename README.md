# Travel app screen logic in Dafny

This project models the pieces of logic inside the screens of a React Native
travel app and proves what they guarantee:

- **Destination browser** (`TravelApp`, `travel_app.dfy`): the home screen narrows a fixed list of
  six destinations by an optional trip tag and an optional search text.
  - The tag matches a destination whose location, or one of its tags, equals it ignoring case.
  - The search text is lower-cased and trimmed. It matches when it occurs in the lower-cased name, location or a tag.
  - Tapping a trip toggles it. A clear button empties both filters.
- **Trip list** (`Trips`, `trips.dfy`): an in-memory list of trips with add (validated), delete by id
  and set-current.
  - Set-current is refused for a trip whose date has passed.
  - A date is written "D MonthName YYYY". It is split at spaces, the month name is looked up, and day and year are read with `parseInt`.
  - The date is past when its midnight comes before the clock.
- **One-time-password screen** (`Otp`, `otp.dfy`): four one-character slots, a 120-second countdown
  that enables the resend link at zero, and verify and resend actions.
- **User-details form** (`DetailsForm`, `details_form.dfy`):
  - typed dates are reformatted as DD/MM/YYYY;
  - a date from the picker is written with a zero-padded day and month;
  - the gender picker sets one of four values.
- **Journey planner** (`Journey`, `journey.dfy`):
  - two endpoint slots that never hold the same place;
  - the five-point route drawn between them;
  - a strip of the next fourteen days.

`Seqs` (`seqs.dfy`) and `Strings` (`strings.dfy`) model the JavaScript primitives the screens use:

- `filter`, `some` and `indexOf`;
- `toLowerCase` on ASCII letters;
- `includes` and `trim`;
- `split(" ")`;
- `parseInt` in base 10 and `toString`.

Each stateful screen is a class whose fields are the screen's state variables. Each handler is a method whose postcondition gives the new state as a function of the old one. The properties are proved as lemmas about those functions.

Dates are day numbers in the proleptic Gregorian calendar, so `new Date(y, m, d)` lets a day beyond the month's end run into the next month, as JavaScript does. The device clock is a parameter (`Clock`: local date and milliseconds since midnight). A `parseInt` that yields `NaN` is `None`. An Invalid Date never compares as past.

Two behaviours of the code differ from what the screen evidently intends. The model follows the code in both:

- The trip list is seeded with exactly one trip flagged `isCurrent: true` (app/detail.tsx:25), and setting a trip current confirms with "This is now your current journey" (app/detail.tsx:138): one current journey is intended. The code flags every trip whose id matches (app/detail.tsx:133-136). A new trip's id is the list length plus one (app/detail.tsx:92), so after a delete followed by an add two trips can share an id. `Trips.IdReuseAfterDelete` shows two trips flagged at once. `Trips.AddKeepsAtMostOne`, `Trips.DeleteKeepsInvariants`, `Trips.MarkCurrentUnique` and `Trips.AddKeepsUniqueIdsIff` (ids collide exactly when an existing trip already has the new id) show that this id reuse is the only way to get there.
- `isPastJourney` ends with `tripDate < today` (app/detail.tsx:81-82). `tripDate` is the trip day's midnight and `today` is `new Date()`, the current instant, so the comparison is between time values in milliseconds. A trip dated today is therefore past as soon as the day has begun, not only from tomorrow on. An Invalid Date compares false. `Trips.PastIffBeforeNow` states this.

## Model

| member | source | states |
|---|---|---|
| TravelApp.Filtered | app/TravelApp.tsx:101-123 | the effect's result is no longer than the list, and each destination in it is in the list and passes every active predicate; `FilteredIsConjunction` gives the converse and the order |
| TravelApp.MatchesTripIff | app/TravelApp.tsx:106-108 | a destination matches a trip exactly when its location or some tag equals the trip ignoring case |
| TravelApp.MatchesQueryIff | app/TravelApp.tsx:115-118 | a destination matches a query exactly when the query occurs in its lower-cased name, location or some tag |
| TravelApp.FilteredIsConjunction | app/TravelApp.tsx:101-123 | the trip filter followed by the search filter equals one filter by the conjunction of the active predicates |
| TravelApp.FilteredKeepsExactlyPassing | app/TravelApp.tsx:101-123 | the result is an order-preserving subsequence of the list, and a destination is in it exactly when it is in the list and passes every active predicate |
| TravelApp.FilteredIdentity | app/TravelApp.tsx:102-122 | with no trip selected and a blank search text the whole list comes back unchanged and in order |
| TravelApp.FilteredMatchesTrip | app/TravelApp.tsx:104-110 | with a trip selected, every kept destination has its location or some tag equal to the trip ignoring case |
| TravelApp.FilteredMatchesQuery | app/TravelApp.tsx:112-120 | with a non-blank search text, every kept destination contains the lower-cased trimmed text in its lower-cased name, location or some tag |
| TravelApp.MatchesQueryContains | app/TravelApp.tsx:115-118 | the search predicate implies that the text occurs in the name, the location or a tag |
| TravelApp.JaipurSample | app/TravelApp.tsx:49-110 | on the sample data the trip "Jaipur" keeps exactly Hawa Mahal, then Amber Fort |
| TravelApp.Browser.constructor | app/TravelApp.tsx:33-34 | both filters start empty, so the full list shows |
| TravelApp.Browser.Results | app/TravelApp.tsx:101-123 | the shown list is an order-preserving subsequence of the sample list, and everything in it passes both active filters; it is `Filtered` of the sample list, so `FilteredKeepsExactlyPassing` gives the converse: every sample destination that passes is shown |
| TravelApp.Browser.EditQuery | app/TravelApp.tsx:165 | typing stores the search text and leaves the trip selection alone |
| TravelApp.Browser.SelectTrip | app/TravelApp.tsx:125-128 | tapping the selected trip deselects it and any other selects it; the search text is cleared; the results are then the whole list or the trip filter alone |
| TravelApp.Browser.ClearAll | app/TravelApp.tsx:130-133 | both filters become empty and the results are the whole list |
| Seqs.Filter | app/TravelApp.tsx:105-119 | `filter` keeps exactly the elements satisfying the predicate, as a subsequence, as many as satisfy it |
| Seqs.FilterTwice | app/TravelApp.tsx:104-120 | filtering twice is filtering once by the conjunction |
| Seqs.Any | app/TravelApp.tsx:108 | `some` holds exactly when some element satisfies the predicate |
| Seqs.IndexOf | app/detail.tsx:77 | `indexOf` returns the first index holding the value, or -1 exactly when the value is absent |
| Strings.Lower | app/TravelApp.tsx:107 | `toLowerCase` keeps the length and folds each character |
| Strings.Includes | app/TravelApp.tsx:116-118 | `includes` holds exactly when the text occurs at some position |
| Strings.TrimStart | app/TravelApp.tsx:112-113 | `trim` drops a blank prefix and leaves a suffix not starting with white space |
| Strings.TrimEnd | app/TravelApp.tsx:112-113 | `trim` drops a blank suffix and leaves a prefix not ending with white space |
| Strings.Trim | app/TravelApp.tsx:112 | `trim` gives a text no longer than the input that neither starts nor ends with white space |
| Strings.TrimIsInfix | app/TravelApp.tsx:112 | what `trim` leaves is the slice of the input between a blank prefix and a blank suffix |
| Strings.TrimEmptyIffBlank | app/TravelApp.tsx:112 | trimming leaves nothing exactly when the text is blank |
| Strings.KeepDigits | app/UserDetailsForm.tsx:42 | removing non-digits leaves only digits, in their original order, and as many as the text has, so exactly its digits |
| Strings.KeepDigitsAppend | app/UserDetailsForm.tsx:42 | the digits of a concatenation are the concatenated digits |
| Strings.Split | app/detail.tsx:74 | `split(" ")` gives at least one piece, none containing a space |
| Strings.SplitJoin | app/detail.tsx:74 | the pieces rejoined with single spaces give back the text |
| Strings.SplitAfterWord | app/detail.tsx:74 | a word without spaces followed by a space is the first piece |
| Strings.ParseInt | app/detail.tsx:81 | `parseInt` is NaN exactly when no digit follows the leading white space and the optional sign, and is negative only after a minus sign |
| Strings.ParseIntLeading | app/detail.tsx:81 | `parseInt` of white space, an optional sign, digits and then anything not starting with a digit is the digits' value, negated after a minus sign |
| Strings.ParseIntOrdinal | app/detail.tsx:81 | `parseInt("5th")` is 5 |
| Strings.ParseIntDigits | app/detail.tsx:81 | `parseInt` of a non-empty run of digits is the number they denote |
| Strings.NatToString | app/UserDetailsForm.tsx:68-71 | `toString` of a number is a non-empty run of digits without a leading zero; `ValueOfNatToString` reads it back |
| Strings.IntToString | app/UserDetailsForm.tsx:70-71 | `toString` of an integer is its digits without a leading zero, after a minus sign when negative, and reads back as its magnitude |
| Strings.ValueOfNatToString | app/UserDetailsForm.tsx:69-72 | reading back the decimal text of a number gives the number |
| Trips.MonthIndex | app/detail.tsx:75-79 | the month index names the month at that index, and there is none exactly when the word is not a month name |
| Trips.IsPastJourney | app/detail.tsx:71-83 | a past date has a month name as its second word and a day and a year that `parseInt` reads; `PastIffBeforeNow` gives the condition for well-formed dates |
| Trips.MidnightTime | app/detail.tsx:81 | `new Date(year, month, day)` is invalid when the day or the year is NaN; any valid result is a midnight (a multiple of a day's milliseconds) within the `TimeClip` range; a real calendar date, after the two-digit-year rule, always gives the midnight of its own day |
| Trips.FullYear | app/detail.tsx:81 | years 0 to 99 are read as 1900 to 1999 and other years are kept |
| Trips.TwoDigitYear | app/detail.tsx:81 | a date in year 0 to 99 is the same date in year 1900 to 1999 |
| Trips.NowTime | app/detail.tsx:72 | `new Date()` is the time value whose day is today's and whose remainder is the milliseconds since midnight |
| Trips.BeforeNow | app/detail.tsx:82 | `tripDate < today` is false for an Invalid Date, and for a midnight holds exactly when its day is before today or is today after midnight |
| Trips.PastNeedsMonthName | app/detail.tsx:74-79 | a date counts as past only if its second word is one of the twelve month names |
| Trips.PastIffBeforeNow | app/detail.tsx:71-83 | "D Month YYYY" is past exactly when the date comes before today, or is today and the day has begun |
| Trips.ParseWrittenDate | app/detail.tsx:74-81 | splitting and parsing "D Month YYYY" recovers the day, month and year |
| Trips.QuotientSteps | app/detail.tsx:81 | the leap-day counts by 4, 100 and 400 step up exactly at multiples of those divisors |
| Trips.YearLength | app/detail.tsx:81 | the day count of 1 January of the next year is this year's plus the year's length |
| Trips.MidnightBeforeNow | app/detail.tsx:81-82 | a real date's midnight is before the clock exactly when the date is earlier or is today after midnight |
| Trips.DayNumberOrdered | app/detail.tsx:81 | on real calendar dates the day count follows calendar order |
| Trips.MonthNamesDistinct | app/detail.tsx:75-77 | each month name is found at its own index |
| Trips.PastExample | app/detail.tsx:40 | "01 February 2023" is past in October 2025 |
| Trips.FutureExample | app/detail.tsx:24 | "25 December 2025" is not past on 15 October 2025 |
| Trips.WithTripAdded | app/detail.tsx:91-100 | adding appends exactly one trip, not current, with id one more than the old length, and keeps the earlier trips |
| Trips.MarkedCurrent | app/detail.tsx:133-136 | marking keeps length, order and all other fields, and flags exactly the trips whose id matches |
| Trips.WithoutTrip | app/detail.tsx:119 | the trips left are exactly the old trips with another id, in their old order |
| Trips.DeleteRemovesExactly | app/detail.tsx:119 | deleting removes exactly the trips with that id, keeps the rest in order, and shrinks the list by their number |
| Trips.MarkCurrentUnique | app/detail.tsx:133-137 | with unique ids at most one trip is current afterwards, and one is exactly when the id exists |
| Trips.AddKeepsAtMostOne | app/detail.tsx:91-100 | adding a trip keeps at most one trip current |
| Trips.AddKeepsUniqueIdsIff | app/detail.tsx:91-100 | adding to a list with unique ids keeps them unique exactly when no trip already has the new id |
| Trips.DeleteKeepsInvariants | app/detail.tsx:119 | deleting keeps ids unique and keeps at most one trip current |
| Trips.AddKeepsSequentialIds | app/detail.tsx:92-100 | while ids are 1..n, adding keeps them 1..n+1 and unique |
| Trips.IdReuseAfterDelete | app/detail.tsx:91-136 | deleting trip 1 and adding a trip duplicates id 3, and marking trip 3 current then flags two trips |
| Trips.GoaDateNotPast | app/detail.tsx:127-131 | the added trip's date is not past, so set-current is not refused |
| Trips.TripScreen.constructor | app/detail.tsx:20-51 | the screen starts with the three sample trips and an empty form |
| Trips.TripScreen.EditForm | app/detail.tsx:250-280 | typing sets the four form fields and leaves the trips alone |
| Trips.TripScreen.AddTrip | app/detail.tsx:85-108 | a missing title, date or destination changes nothing; otherwise the trip is appended and the form cleared |
| Trips.TripScreen.DeleteTrip | app/detail.tsx:110-125 | confirming removes the trips with that id |
| Trips.TripScreen.SetCurrent | app/detail.tsx:127-139 | a past date is refused with no change; otherwise the trips are marked by id |
| Otp.InitialState | app/OTP.tsx:22-24 | the screen starts with four empty slots, timer 120 and resend disabled, a valid state |
| Otp.NextSecond | app/OTP.tsx:67-76 | a second never touches the slots, never raises the timer, and keeps a valid state valid |
| Otp.Settle | app/OTP.tsx:67-76 | the countdown effect changes neither slots nor timer, and enables resend once the timer is 0 |
| Otp.TickStep | app/OTP.tsx:67-76 | a second keeps the state valid and, while resend is disabled, takes exactly one off the timer |
| Otp.TicksCountDown | app/OTP.tsx:67-76 | after n seconds the timer shows what is left, never below 0, and resend is enabled exactly when it has run out |
| Otp.ResendEnabledAfterDelay | app/OTP.tsx:67-76 | from a fresh or resent state, resend is enabled after n seconds exactly when n is at least 120 |
| Otp.EditSlot | app/OTP.tsx:78-81 | an edit writes only the chosen slot and keeps the slot count, timer and flag |
| Otp.EditKeepsValid | app/OTP.tsx:78-81 | an edit keeps the state valid, and single-character input keeps every slot at most one character |
| Otp.FullIffFilled | app/OTP.tsx:95-96 | with one-character slots the joined code has four characters exactly when all four slots are filled |
| Otp.Joined | app/OTP.tsx:95 | `otp.join('')` is empty exactly when every slot is empty; `JoinedLength` gives its length |
| Otp.JoinedLength | app/OTP.tsx:95 | the joined code is at most as long as the number of slots, and as long exactly when all are filled |
| Otp.SubmitToast | app/OTP.tsx:94-109 | submit reports success exactly when the joined code is "1234", and invalid input exactly when it is not four characters long |
| Otp.Submitted | app/OTP.tsx:94-109 | submit keeps the timer and the flag, and either keeps the slots or empties them, keeping a valid state valid |
| Otp.Resent | app/OTP.tsx:111-114 | resend gives a valid state with four empty slots, timer 120 and resend disabled |
| Otp.SubmitOutcome | app/OTP.tsx:94-109 | another length reports invalid input with no change; "1234" verifies with no change; another four-character code fails and clears the slots; the timer and flag never change |
| Otp.CorrectCodeVerifies | app/OTP.tsx:94-98 | typing 1, 2, 3, 4 into a fresh screen verifies |
| Otp.ResendResets | app/OTP.tsx:111-114 | resend gives the initial state whatever the state before |
| Otp.OtpScreen.constructor | app/OTP.tsx:22-24 | the screen's fields start in the initial state |
| Otp.OtpScreen.Tick | app/OTP.tsx:67-76 | one second of the interval and the effect re-run give the next state |
| Otp.OtpScreen.ChangeDigit | app/OTP.tsx:78-81 | the slots become a copy with one slot replaced |
| Otp.OtpScreen.Submit | app/OTP.tsx:94-109 | the toast and the new slots are those of the submit outcome |
| Otp.OtpScreen.Resend | app/OTP.tsx:111-119 | resend resets the slots, the timer and the flag and reports a sent code |
| DetailsForm.FormatDateInput | app/UserDetailsForm.tsx:41-56 | the formatted text holds only digits and slashes and is at most ten characters long |
| DetailsForm.Layout | app/UserDetailsForm.tsx:43-54 | laying out digits gives only digits and slashes, at most ten characters; `LayoutShape` gives the shape |
| DetailsForm.FormatShape | app/UserDetailsForm.tsx:43-54 | below two digits the digits themselves; two or three give DD/rest; four or more give DD/MM/ and digits five to eight |
| DetailsForm.FormatKeepsDigitPrefix | app/UserDetailsForm.tsx:41-56 | the digits of the result are the first eight digits typed |
| DetailsForm.LayoutDigits | app/UserDetailsForm.tsx:43-54 | laying out a digit string keeps its first eight digits and nothing else |
| DetailsForm.LayoutOfKept | app/UserDetailsForm.tsx:47-53 | digits beyond the eighth do not affect the layout |
| DetailsForm.FormatIdempotent | app/UserDetailsForm.tsx:41-56 | formatting a formatted value returns it unchanged |
| DetailsForm.DigitsOfThreeFields | app/UserDetailsForm.tsx:47-53 | the digits of day/month/year joined by slashes are the three fields run together |
| DetailsForm.FieldsAreFormatted | app/UserDetailsForm.tsx:47-53 | two digits, a slash, two digits, a slash and four digits format to themselves |
| DetailsForm.Pad2 | app/UserDetailsForm.tsx:69-70 | a padded number below 100 is two digits that read back as the number |
| DetailsForm.FormatPicked | app/UserDetailsForm.tsx:68-71 | a picked date is written with two digits of day, a slash, two digits of month and a slash before the year |
| DetailsForm.PickedReadsBack | app/UserDetailsForm.tsx:66-74 | a picked date is two-digit day, slash, two-digit one-based month, slash, then the year written as `toString` writes it, with no leading zero; each field reads back as its value |
| DetailsForm.PickedIsFormatted | app/UserDetailsForm.tsx:41-74 | a picked date with a four-digit year is already in the typed format |
| DetailsForm.PickerItems | app/UserDetailsForm.tsx:179 | the picker lists four items |
| DetailsForm.PickerValues | app/UserDetailsForm.tsx:28-34 | the listed items are the options after the placeholder, none with an empty value |
| DetailsForm.ProfileForm.constructor | app/UserDetailsForm.tsx:22-26 | the form starts with no date, no gender and both pickers closed |
| DetailsForm.ProfileForm.HandleDateChange | app/UserDetailsForm.tsx:58-63 | the formatted text always passes the length guard and is stored |
| DetailsForm.ProfileForm.OpenDatePicker | app/UserDetailsForm.tsx:114 | the calendar button opens the date picker |
| DetailsForm.ProfileForm.OnDatePicked | app/UserDetailsForm.tsx:66-74 | the picker closes; a picked date is written, and without one the field keeps its text |
| DetailsForm.ProfileForm.OpenGenderPicker | app/UserDetailsForm.tsx:140 | tapping the gender field opens the picker |
| DetailsForm.ProfileForm.CloseGenderPicker | app/UserDetailsForm.tsx:170-176 | cancel and done close the picker |
| DetailsForm.ProfileForm.PickGender | app/UserDetailsForm.tsx:179-186 | choosing an item sets one of the four non-empty values and closes the picker |
| Journey.InitiallyEmpty | _components/journey.tsx:44-47 | both slots start empty with the selector closed |
| Journey.ChoiceEffect | _components/journey.tsx:82-97 | a place already in the other slot is refused with no change; otherwise only the chosen slot is filled and the selector closes |
| Journey.ChoiceOutcome | _components/journey.tsx:82-97 | the alert is raised only when the place has the other slot's id, and an accepted place always leaves the two ends distinct |
| Journey.Closed | _components/journey.tsx:300 | closing hides the selector and keeps both slots and the slot being chosen |
| Journey.AfterChoice | _components/journey.tsx:82-97 | a choice keeps distinct ends distinct and keeps the slot being chosen; a choice that changes anything closes the selector |
| Journey.Opened | _components/journey.tsx:99-102 | opening the selector records the slot and leaves both slots as they were |
| Journey.StepKeepsDistinct | _components/journey.tsx:82-102 | opening, choosing and closing keep the two ends distinct |
| Journey.RunKeepsDistinct | _components/journey.tsx:82-102 | any session of actions keeps the initial point and the destination distinct |
| Journey.LocationIdsDistinct | _components/journey.tsx:33-40 | the places on offer have distinct ids |
| Journey.JourneyPoints | _components/journey.tsx:51-69 | five points, the first the start and the last the destination, with places only on the ends |
| Journey.JourneyPointsShape | _components/journey.tsx:51-69 | five points with ids 1 to 5; only the first is the start and only the last the destination; places appear on the ends exactly when both slots are filled and never in the middle |
| Journey.GenerateDates | _components/journey.tsx:104-113 | fourteen dates; the first is today and each is one day after the previous, at the same time of day |
| Journey.JourneyScreen.constructor | _components/journey.tsx:44-47 | the screen starts with both slots empty |
| Journey.JourneyScreen.SelectLocation | _components/journey.tsx:82-97 | the alert and the new state are those of the choice |
| Journey.JourneyScreen.OpenLocationSelector | _components/journey.tsx:99-102 | the selector opens for the given slot |
| Journey.JourneyScreen.Points | _components/journey.tsx:71 | the route on the screen has five points, start first and destination last, carrying the chosen places when both are chosen and none otherwise |
| Journey.JourneyScreen.CloseLocationSelector | _components/journey.tsx:300 | the close button hides the selector |

## Left out

- Rendering, styles, animations, navigation and the timing of toasts and alerts. Alerts and toasts are returned as outcome values (`Notice`, `Toast`, `Choice`).
- The `setInterval` plumbing. A second of the OTP countdown is an explicit `Tick` call, and the current time is a `Clock` parameter.
- Input focus moves through refs (app/OTP.tsx:84-91, 102-104, 115-117).
- Time zones and daylight-saving changes. Days are 86 400 000 ms and the clock is local time.
- JavaScript's out-of-range handling of dates beyond year 270 000 is limited to the `TimeClip` bound. The lemmas assume dates in that span.
- `parseInt` is modelled in base 10 only. The `0x` prefix that `parseInt` reads as hexadecimal is not modelled.
- Case folding covers ASCII letters only, where JavaScript folds all of Unicode.
- `toLocaleDateString`, the SVG path and the progress-dot arithmetic of the journey screen.
- The journey screen's `selectedDate` and its own date picker. Its other screens (map, camera, profile toggles, galleries, login, splash) are not part of this model.
- The cancel button of the delete confirmation, which changes nothing. The add-trip modal's visibility flag.
- The first render of the home screen, before the filtering effect has run, shows an empty list. `TravelApp.Browser.Results` is the list after the effect.
- The name and address fields of the details form are plain text inputs with no logic.
- Trips.PastIffBeforeNow: stated for day and year written as plain digit runs with a year of at least 100, forming a real calendar date of year at most 270 000. Texts with signs, leading spaces or trailing junk, two-digit years (read as 1900 plus the year), days past the month's end such as "31 February" (which run into the next month), day 0 and later years are covered only by the definition `Trips.IsPastJourney`.
- Otp.SubmitToast: lengths are counted in characters (Unicode scalar values), while JavaScript's `length` counts UTF-16 units. The two agree for slots holding characters of the Basic Multilingual Plane, which the one-character inputs (`maxLength={1}`, app/OTP.tsx:182) hold in practice; a slot holding a character outside it (an emoji, say) counts as one character here and as two in the app, so an emoji, 1 and 2 in three slots are invalid input here and an incorrect code there.
- DetailsForm.PickedReadsBack: stated for years from 0 on. A negative year is written with a minus sign by `Strings.IntToString`.
