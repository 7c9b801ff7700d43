/** The user-details form: the date-of-birth field, which reformats whatever
    is typed as DD/MM/YYYY or takes a date from a picker, and the gender
    picker. */
module DetailsForm {
  import opened Seqs
  import opened Strings

  // ------------------------------------------------------- typed dates

  function Min(a: int, b: int): int { if a < b then a else b }

  /** Only digits and slashes. */
  predicate DigitsAndSlashes(s: string)
  {
    forall i :: 0 <= i < |s| ==> IsDigit(s[i]) || s[i] == '/'
  }

  /** `formatDateInput`: keep the digits, then lay them out as a date. */
  function FormatDateInput(text: string): (r: string)
    ensures DigitsAndSlashes(r)
    ensures |r| <= 10
  {
    Layout(KeepDigits(text))
  }

  /** The layout step of `formatDateInput`: from two digits on a slash after
      the day, from four digits on also after the month, and then at most
      four digits of year. */
  function Layout(cleaned: string): (r: string)
    ensures AllDigits(cleaned) ==> DigitsAndSlashes(r)
    ensures |r| <= 10
  {
    if |cleaned| >= 4 then
      cleaned[..2] + "/" + cleaned[2..4] + "/" + cleaned[4..Min(8, |cleaned|)]
    else if |cleaned| >= 2 then
      cleaned[..2] + "/" + cleaned[2..]
    else cleaned
  }

  /** The shape of the result: below two digits the digits themselves; with
      two or three, the first two, a slash, then the rest; with four or more,
      day, slash, month, slash and digits five to eight, the others dropped. */
  lemma FormatShape(text: string)
    ensures var c, r := KeepDigits(text), FormatDateInput(text);
            (|c| < 2 ==> r == c) &&
            (2 <= |c| < 4 ==> |r| == |c| + 1 && r[2] == '/' && r[..2] == c[..2] && r[3..] == c[2..]) &&
            (|c| >= 4 ==> |r| == Min(8, |c|) + 2 && r[2] == '/' && r[5] == '/' &&
                          r[..2] == c[..2] && r[3..5] == c[2..4] && r[6..] == c[4..Min(8, |c|)])
  {
    LayoutShape(KeepDigits(text));
  }

  lemma LayoutShape(c: string)
    ensures var r := Layout(c);
            (|c| < 2 ==> r == c) &&
            (2 <= |c| < 4 ==> |r| == |c| + 1 && r[2] == '/' && r[..2] == c[..2] && r[3..] == c[2..]) &&
            (|c| >= 4 ==> |r| == Min(8, |c|) + 2 && r[2] == '/' && r[5] == '/' &&
                          r[..2] == c[..2] && r[3..5] == c[2..4] && r[6..] == c[4..Min(8, |c|)])
  {
  }

  /** The digits of the result are the first eight digits typed, so they are
      a prefix of the input's digits. */
  lemma FormatKeepsDigitPrefix(text: string)
    ensures var c := KeepDigits(text);
            KeepDigits(FormatDateInput(text)) == c[..Min(8, |c|)]
  {
    LayoutDigits(KeepDigits(text));
  }

  lemma LayoutDigits(c: string)
    requires AllDigits(c)
    ensures KeepDigits(Layout(c)) == c[..Min(8, |c|)]
  {
    if |c| >= 4 {
      var d, m, y := c[..2], c[2..4], c[4..Min(8, |c|)];
      DigitsOfThreeFields(d, m, y);
      assert c[..Min(8, |c|)] == d + m + y;
    } else if |c| >= 2 {
      DigitsOfTwoFields(c[..2], c[2..]);
      assert c == c[..2] + c[2..];
    } else {
      KeepDigitsOfDigits(c);
    }
  }

  /** Laying out only the digits that are kept gives the same text. */
  lemma LayoutOfKept(c: string)
    ensures Layout(c[..Min(8, |c|)]) == Layout(c)
  {
    var c' := c[..Min(8, |c|)];
    if |c| >= 4 {
      assert c'[..2] == c[..2] && c'[2..4] == c[2..4] && c'[4..Min(8, |c'|)] == c[4..Min(8, |c|)];
    }
  }

  /** The digits of two digit fields joined by a slash. */
  lemma DigitsOfTwoFields(a: string, b: string)
    requires AllDigits(a) && AllDigits(b)
    ensures KeepDigits(a + "/" + b) == a + b
  {
    KeepDigitsSkip(a, '/', b);
    KeepDigitsOfDigits(a);
    KeepDigitsOfDigits(b);
  }

  /** The digits of three digit fields joined by slashes. */
  lemma DigitsOfThreeFields(a: string, b: string, c: string)
    requires AllDigits(a) && AllDigits(b) && AllDigits(c)
    ensures KeepDigits(a + "/" + b + "/" + c) == a + b + c
  {
    KeepDigitsSkip(a + "/" + b, '/', c);
    DigitsOfTwoFields(a, b);
    KeepDigitsOfDigits(c);
  }

  /** Formatting a formatted value changes nothing. */
  lemma FormatIdempotent(text: string)
    ensures FormatDateInput(FormatDateInput(text)) == FormatDateInput(text)
  {
    var c := KeepDigits(text);
    LayoutDigits(c);
    LayoutOfKept(c);
  }

  // ------------------------------------------------------ picked dates

  /** What the picker hands back: day of month, 0-based month and full year. */
  datatype PickedDate = PickedDate(day: int, month: int, year: int)

  predicate ValidPicked(p: PickedDate)
  {
    1 <= p.day <= 31 && 0 <= p.month < 12
  }

  /** `n.toString().padStart(2, '0')`. */
  function Pad2(n: nat): (r: string)
    ensures AllDigits(r) && ValueOf(r) == n
    ensures n < 100 ==> |r| == 2
  {
    var s := NatToString(n);
    ValueOfNatToString(n);
    NatToStringLength(n);
    if |s| < 2 then
      assert ("0" + s)[..1] == "0";
      "0" + s
    else s
  }

  /** `${day}/${month}/${year}` with day and one-based month padded to two digits. */
  function FormatPicked(p: PickedDate): (r: string)
    requires ValidPicked(p)
    ensures |r| > 6 && r[2] == '/' && r[5] == '/'
    ensures AllDigits(r[..2]) && AllDigits(r[3..5])
  {
    var d, m := Pad2(p.day), Pad2(p.month + 1);
    var r := d + "/" + m + "/" + IntToString(p.year);
    assert r[..2] == d && r[3..5] == m;
    r
  }

  /** A picked date reads back: two digits of day, a slash, two digits of
      one-based month, a slash, then the year. */
  lemma PickedReadsBack(p: PickedDate)
    requires ValidPicked(p) && p.year >= 0
    ensures var r := FormatPicked(p);
            |r| > 6 && r[2] == '/' && r[5] == '/' &&
            AllDigits(r[..2]) && ValueOf(r[..2]) == p.day &&
            AllDigits(r[3..5]) && ValueOf(r[3..5]) == p.month + 1 &&
            AllDigits(r[6..]) && ValueOf(r[6..]) == p.year &&
            r[6..] == NatToString(p.year) && (|r| > 7 ==> r[6] != '0')
  {
    var r := FormatPicked(p);
    var d, m, y := Pad2(p.day), Pad2(p.month + 1), NatToString(p.year);
    assert r == d + "/" + m + "/" + y;
    assert r[..2] == d && r[3..5] == m && r[6..] == y;
    ValueOfNatToString(p.year);
  }

  /** A picked date with a four-digit year is already in the typed format, so
      editing the field afterwards does not disturb it. */
  lemma PickedIsFormatted(p: PickedDate)
    requires ValidPicked(p) && 1000 <= p.year <= 9999
    ensures FormatDateInput(FormatPicked(p)) == FormatPicked(p)
  {
    var d, m, y := Pad2(p.day), Pad2(p.month + 1), NatToString(p.year);
    NatToStringLength(p.year);
    assert FormatPicked(p) == d + "/" + m + "/" + y;
    FieldsAreFormatted(d, m, y);
  }

  /** Two digits, a slash, two digits, a slash and four digits format to themselves. */
  lemma FieldsAreFormatted(d: string, m: string, y: string)
    requires AllDigits(d) && AllDigits(m) && AllDigits(y)
    requires |d| == 2 && |m| == 2 && |y| == 4
    ensures FormatDateInput(d + "/" + m + "/" + y) == d + "/" + m + "/" + y
  {
    DigitsOfThreeFields(d, m, y);
    var c := d + m + y;
    assert c[..2] == d && c[2..4] == m && c[4..Min(8, |c|)] == y;
    assert FormatDateInput(d + "/" + m + "/" + y) == Layout(c);
  }

  // ------------------------------------------------------------ gender

  datatype GenderOption = GenderOption(caption: string, value: string)

  /** The options list; the first is the placeholder. */
  const GenderOptions: seq<GenderOption> :=
    [ GenderOption("Select your gender", ""),
      GenderOption("Male", "male"),
      GenderOption("Female", "female"),
      GenderOption("Other", "other"),
      GenderOption("Prefer not to say", "prefer_not_to_say")
    ]

  /** `genderOptions.slice(1)`: what the picker lists. */
  function PickerItems(): (r: seq<GenderOption>)
    ensures |r| == 4
  {
    GenderOptions[1..]
  }

  /** A gender the form may hold: none yet, or a value the picker lists. */
  predicate KnownGender(g: string)
  {
    g == "" || exists i :: 0 <= i < |PickerItems()| && PickerItems()[i].value == g
  }

  /** The picker lists the four real choices, none of them the empty placeholder value. */
  lemma PickerValues()
    ensures forall i :: 0 <= i < |PickerItems()| ==> PickerItems()[i].value != ""
    ensures forall i :: 0 <= i < |PickerItems()| ==> PickerItems()[i] == GenderOptions[i + 1]
  {
  }

  // -------------------------------------------------------------- form

  /** The form's date and gender state. */
  class ProfileForm {
    var dateOfBirth: string
    var gender: string
    var showDatePicker: bool
    var showGenderPicker: bool

    constructor ()
      ensures dateOfBirth == "" && gender == "" && !showDatePicker && !showGenderPicker
      ensures KnownGender(gender)
    {
      dateOfBirth, gender := "", "";
      showDatePicker, showGenderPicker := false, false;
    }

    /** `handleDateChange`: the formatted text always fits the ten-character
      limit, so it is always stored. */
    method HandleDateChange(text: string)
      modifies this
      ensures dateOfBirth == FormatDateInput(text)
      ensures gender == old(gender) && showDatePicker == old(showDatePicker)
      ensures showGenderPicker == old(showGenderPicker)
    {
      var formatted := FormatDateInput(text);
      if |formatted| <= 10 {
        dateOfBirth := formatted;
      }
    }

    /** The calendar button. */
    method OpenDatePicker()
      modifies this`showDatePicker
      ensures showDatePicker
    {
      showDatePicker := true;
    }

    /** `onDatePicked`: the picker closes; a picked date is written into the
        field, and without one the field keeps its text. */
    method OnDatePicked(selected: Option<PickedDate>)
      requires selected.Some? ==> ValidPicked(selected.value)
      modifies this
      ensures !showDatePicker
      ensures dateOfBirth == if selected.Some? then FormatPicked(selected.value) else old(dateOfBirth)
      ensures gender == old(gender) && showGenderPicker == old(showGenderPicker)
    {
      showDatePicker := false;
      if selected.Some? {
        dateOfBirth := FormatPicked(selected.value);
      }
    }

    /** Tapping the gender field. */
    method OpenGenderPicker()
      modifies this`showGenderPicker
      ensures showGenderPicker
    {
      showGenderPicker := true;
    }

    /** Cancel or Done: the picker closes and the gender stays. */
    method CloseGenderPicker()
      modifies this`showGenderPicker
      ensures !showGenderPicker
    {
      showGenderPicker := false;
    }

    /** Choosing item `i` of the picker sets that item's value and closes it. */
    method PickGender(i: nat)
      requires i < |PickerItems()|
      modifies this
      ensures gender == PickerItems()[i].value && gender != "" && KnownGender(gender)
      ensures !showGenderPicker
      ensures dateOfBirth == old(dateOfBirth) && showDatePicker == old(showDatePicker)
    {
      PickerValues();
      gender := PickerItems()[i].value;
      showGenderPicker := false;
    }
  }
}
