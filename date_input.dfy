/**
 * The date-of-birth input that accepts a date in either calendar: AD
 * (Gregorian) or BS (Bikram Sambat). The text is cleaned, split into three
 * numbers, range-checked and handed to a calendar converter; the page keeps
 * the ISO (AD) form. The converter library is the `Calendar` parameter: a
 * partial function each way, None where the library throws.
 */
module DateInput {
  import opened Wrappers
  import opened Text

  datatype Mode = AD | BS

  /** A year, a 1-based month and a day, in whichever calendar the context says. */
  datatype Ymd = Ymd(year: int, month: int, day: int)

  /** The converter library: AD to BS (`NepaliDate.fromAD`) and BS to AD (`new NepaliDate(...).toJsDate()`). */
  datatype Calendar = Calendar(adToBs: Ymd -> Option<Ymd>, bsToAd: Ymd -> Option<Ymd>)

  /** The result of a conversion: the ISO value reported to the form, and both spellings. */
  datatype Converted = Converted(iso: string, ad: string, bs: string)

  const AD_MIN_YEAR := 1944
  const AD_MAX_YEAR := 2040
  const BS_MIN_YEAR := 2000
  const BS_MAX_YEAR := 2090

  /** A date the page can spell and read back: non-negative year, month 1-12, day 1-32 (BS months run to 32 days). */
  predicate InRange(d: Ymd) {
    d.year >= 0 && 1 <= d.month <= 12 && 1 <= d.day <= 32
  }

  /** `formatISO`: the year, then month and day zero-padded to two digits, joined by `-`. */
  function FormatISO(d: Ymd): (s: string)
    ensures InRange(d) ==>
      s == NatToString(d.year) + "-" + PadStart2(NatToString(d.month)) + "-" + PadStart2(NatToString(d.day))
    ensures InRange(d) ==> |s| == |NatToString(d.year)| + 6
  {
    IntToString(d.year) + "-" + PadStart2(IntToString(d.month)) + "-" + PadStart2(IntToString(d.day))
  }

  /** `replace(/[\/\s]/g, '-')`: every slash and white-space character becomes `-`. */
  function DashSeparators(s: string): (r: string)
    ensures |r| == |s|
    ensures forall i :: 0 <= i < |s| ==> r[i] == if s[i] == '/' || IsSpace(s[i]) then '-' else s[i]
  {
    if s == [] then []
    else [if s[0] == '/' || IsSpace(s[0]) then '-' else s[0]] + DashSeparators(s[1..])
  }

  /** The cleaned text: trimmed, then separators unified. */
  function Clean(s: string): string {
    DashSeparators(Trim(s))
  }

  /**
   * The three numbers `parseInt` reads from the cleaned text, None unless
   * there are exactly three and none is NaN. A minus sign has become a
   * separator by then, so no part reads as a negative number.
   */
  function ReadParts(s: string): (r: Option<Ymd>)
    ensures r.Some? ==> r.value.year >= 0 && r.value.month >= 0 && r.value.day >= 0
  {
    var parts := Split(Clean(s), '-');
    if |parts| == 3 && ParseIntJs(parts[0]).Some? && ParseIntJs(parts[1]).Some? && ParseIntJs(parts[2]).Some? then
      ParseIntWithoutMinus(parts[0]);
      ParseIntWithoutMinus(parts[1]);
      ParseIntWithoutMinus(parts[2]);
      Some(Ymd(ParseIntJs(parts[0]).value, ParseIntJs(parts[1]).value, ParseIntJs(parts[2]).value))
    else None
  }

  // ---------------------------------------------------------------- field checks

  /**
   * The field checks of `parseAndConvert` as written: the range test reads
   * the parts in written order before the day-first swap, so a part above
   * 100 in third place has already been rejected as a day and the swap never
   * runs; the month has no lower bound.
   */
  function ParseFieldsAsWritten(str: string): (r: Option<Ymd>)
    ensures r.Some? ==> r.value.year >= 0 && 0 <= r.value.month <= 12 && 1 <= r.value.day <= 32
    ensures r.Some? ==> !IsBlank(str) && ReadParts(str) == r
    ensures (!IsBlank(str) && ReadParts(str).Some? && ReadParts(str).value.month <= 12
             && 1 <= ReadParts(str).value.day <= 32) ==> r == ReadParts(str)
  {
    if IsBlank(str) then None
    else match ReadParts(str)
      case None => None
      case Some(p) =>
        if p.month > 12 || p.day > 32 || p.day < 1 then None
        else if p.year < 100 && p.day > 100 then Some(Ymd(p.day, p.month, p.year))
        else Some(p)
  }

  /** The day-first reading: a small first part and a year above 100 in third place change places. */
  function DayFirstSwap(p: Ymd): Ymd {
    if p.year < 100 && p.day > 100 then Ymd(p.day, p.month, p.year) else p
  }

  /**
   * The field checks as intended: a day-first date is turned around first,
   * and then the month and the day are both checked against their ranges.
   */
  function ParseFields(str: string): (r: Option<Ymd>)
    ensures r.Some? ==> InRange(r.value)
    ensures r.Some? ==> !IsBlank(str) && ReadParts(str).Some? && r.value == DayFirstSwap(ReadParts(str).value)
    ensures (!IsBlank(str) && ReadParts(str).Some? && 1 <= DayFirstSwap(ReadParts(str).value).month <= 12
             && 1 <= DayFirstSwap(ReadParts(str).value).day <= 32) ==> r == Some(DayFirstSwap(ReadParts(str).value))
  {
    if IsBlank(str) then None
    else match ReadParts(str)
      case None => None
      case Some(p) =>
        var d := DayFirstSwap(p);
        if d.month < 1 || d.month > 12 || d.day < 1 || d.day > 32 then None else Some(d)
  }

  // ---------------------------------------------------------------- reading an ISO date back

  /** Digits and dashes only, starting and ending with a digit. */
  predicate DashedDigits(s: string) {
    |s| > 0 && IsDigit(s[0]) && IsDigit(s[|s| - 1])
    && forall i :: 0 <= i < |s| ==> IsDigit(s[i]) || s[i] == '-'
  }

  /** Text of digits and dashes is already clean. */
  lemma CleanOfDashedDigits(s: string)
    requires DashedDigits(s)
    ensures Clean(s) == s
  {
    DigitOrDashNotSeparator(s[0]);
    DigitOrDashNotSeparator(s[|s| - 1]);
    assert Trim(s) == s;
    forall i | 0 <= i < |s| ensures DashSeparators(s)[i] == s[i] {
      DigitOrDashNotSeparator(s[i]);
    }
    assert DashSeparators(s) == s;
  }

  /** Digits and dashes are neither white space nor slashes. */
  lemma DigitOrDashNotSeparator(c: char)
    requires IsDigit(c) || c == '-'
    ensures !IsSpace(c) && c != '/'
  {
  }

  /** The three spelled parts of a date with non-negative fields. */
  lemma SpelledParts(d: Ymd)
    requires d.year >= 0 && d.month >= 0 && d.day >= 0
    ensures var y, m, dd := NatToString(d.year), PadStart2(NatToString(d.month)), PadStart2(NatToString(d.day));
      IsNumeral(y) && IsNumeral(m) && IsNumeral(dd) && FormatISO(d) == y + ['-'] + m + ['-'] + dd
  {
    PaddedNumeral(d.month);
    PaddedNumeral(d.day);
  }

  /** Three numerals joined by dashes are digits and dashes. */
  lemma JoinedNumerals(y: string, m: string, dd: string)
    requires IsNumeral(y) && IsNumeral(m) && IsNumeral(dd)
    ensures DashedDigits(y + ['-'] + m + ['-'] + dd)
  {
    var s := y + ['-'] + m + ['-'] + dd;
    forall i | 0 <= i < |s| ensures IsDigit(s[i]) || s[i] == '-' {
      if i < |y| {
        assert s[i] == y[i];
      } else if i == |y| || i == |y| + |m| + 1 {
      } else if i < |y| + |m| + 1 {
        assert s[i] == m[i - |y| - 1];
      } else {
        assert s[i] == dd[i - |y| - |m| - 2];
      }
    }
    assert s[0] == y[0] && s[|s| - 1] == dd[|dd| - 1];
  }

  /** A numeral produced by `String(n)`, padded or not, is read back as `n` by `parseInt`. */
  lemma ReadBackNumber(n: nat)
    ensures ParseIntJs(NatToString(n)) == Some(n)
    ensures ParseIntJs(PadStart2(NatToString(n))) == Some(n)
  {
    NatToStringRoundTrip(n);
    ParseIntOfNumeral(NatToString(n));
    PaddedNumeral(n);
    ParsePadded(n);
    ParseIntOfNumeral(PadStart2(NatToString(n)));
  }

  /** Cleaned text of three dash-separated parts that `parseInt` reads as numbers is read as those numbers. */
  lemma ReadPartsOfThree(s: string, a: string, b: string, c: string, x: int, y: int, z: int)
    requires '-' !in a && '-' !in b && '-' !in c
    requires Clean(s) == a + ['-'] + b + ['-'] + c
    requires ParseIntJs(a) == Some(x) && ParseIntJs(b) == Some(y) && ParseIntJs(c) == Some(z)
    ensures ReadParts(s) == Some(Ymd(x, y, z))
  {
    SplitThree(a, b, c, '-');
  }

  /** The parts of a spelled date with any non-negative fields are read back, before any range check. */
  lemma ReadPartsOfISO(d: Ymd)
    requires d.year >= 0 && d.month >= 0 && d.day >= 0
    ensures ReadParts(FormatISO(d)) == Some(d) && !IsBlank(FormatISO(d))
  {
    var y, m, dd := NatToString(d.year), PadStart2(NatToString(d.month)), PadStart2(NatToString(d.day));
    var s := FormatISO(d);
    SpelledParts(d);
    JoinedNumerals(y, m, dd);
    assert !IsBlank(s) by {
      DigitOrDashNotSeparator(s[0]);
    }
    assert ReadParts(s) == Some(d) by {
      CleanOfDashedDigits(s);
      NumeralExcludes(y, '-');
      NumeralExcludes(m, '-');
      NumeralExcludes(dd, '-');
      ReadBackNumber(d.year);
      ReadBackNumber(d.month);
      ReadBackNumber(d.day);
      ReadPartsOfThree(s, y, m, dd, d.year, d.month, d.day);
    }
  }

  /**
   * Round trip through the written checks: a date spelled by `formatISO`,
   * with the month anywhere from 0 to 12, is read back unchanged.
   */
  lemma ParseFieldsAsWrittenOfISO(d: Ymd)
    requires d.year >= 0 && 0 <= d.month <= 12 && 1 <= d.day <= 32
    ensures ParseFieldsAsWritten(FormatISO(d)) == Some(d)
  {
    ReadPartsOfISO(d);
  }

  /** Round trip through the intended checks: a date in range is read back unchanged. */
  lemma ParseFieldsOfISO(d: Ymd)
    requires InRange(d)
    ensures ParseFields(FormatISO(d)) == Some(d)
  {
    ReadPartsOfISO(d);
    assert DayFirstSwap(d) == d;
  }

  // ---------------------------------------------------------------- conversion

  /**
   * The conversion half of `parseAndConvert`, from checked fields: the year
   * range of the input calendar, then the converter. An AD date keeps its
   * own spelling as the ISO value; a BS date reports the AD date the
   * converter gives.
   */
  function Convert(d: Ymd, mode: Mode, cal: Calendar): (r: Option<Converted>)
    ensures r.Some? ==> r.value.iso == r.value.ad
    ensures mode == AD ==>
      (r.Some? <==> AD_MIN_YEAR <= d.year <= AD_MAX_YEAR && cal.adToBs(d).Some?)
    ensures mode == AD && r.Some? ==>
      r.value.ad == FormatISO(d) && r.value.bs == FormatISO(cal.adToBs(d).value) && r.value.iso != ""
    ensures mode == BS ==>
      (r.Some? <==> BS_MIN_YEAR <= d.year <= BS_MAX_YEAR && cal.bsToAd(d).Some?)
    ensures mode == BS && r.Some? ==>
      r.value.bs == FormatISO(d) && r.value.ad == FormatISO(cal.bsToAd(d).value)
  {
    if mode == AD then
      if d.year < AD_MIN_YEAR || d.year > AD_MAX_YEAR then None
      else match cal.adToBs(d)
        case None => None
        case Some(bs) => Some(Converted(FormatISO(d), FormatISO(d), FormatISO(bs)))
    else
      if d.year < BS_MIN_YEAR || d.year > BS_MAX_YEAR then None
      else match cal.bsToAd(d)
        case None => None
        case Some(ad) => Some(Converted(FormatISO(ad), FormatISO(ad), FormatISO(d)))
  }

  /**
   * `parseAndConvert` as written: null unless the written field checks pass
   * and the conversion succeeds. An AD result is the entered date itself,
   * month 0 included, spelled as `formatISO` spells it.
   */
  function ParseAndConvert(str: string, mode: Mode, cal: Calendar): (r: Option<Converted>)
    ensures r.Some? ==> ParseFieldsAsWritten(str).Some? && r.value.iso == r.value.ad
    ensures ParseFieldsAsWritten(str).Some? ==> r == Convert(ParseFieldsAsWritten(str).value, mode, cal)
    ensures r.Some? && mode == AD ==> r.value.iso == FormatISO(ReadParts(str).value)
  {
    match ParseFieldsAsWritten(str)
    case None => None
    case Some(d) => Convert(d, mode, cal)
  }

  /** `parseAndConvert` as intended: the same conversion after the intended field checks. */
  function ParseAndConvertCorrected(str: string, mode: Mode, cal: Calendar): (r: Option<Converted>)
    ensures r.Some? ==> ParseFields(str).Some? && r.value.iso == r.value.ad
    ensures ParseFields(str).Some? ==> r == Convert(ParseFields(str).value, mode, cal)
    ensures r.Some? && mode == AD ==> r.value.iso == FormatISO(DayFirstSwap(ReadParts(str).value))
  {
    match ParseFields(str)
    case None => None
    case Some(d) => Convert(d, mode, cal)
  }

  /**
   * The ISO value an AD entry reports reads back, in AD mode, to the same
   * conversion: re-reading what the input hands to the form changes nothing.
   */
  lemma ADConversionStable(str: string, cal: Calendar)
    requires ParseAndConvert(str, AD, cal).Some?
    ensures ParseAndConvert(ParseAndConvert(str, AD, cal).value.iso, AD, cal) == ParseAndConvert(str, AD, cal)
  {
    var d := ParseFieldsAsWritten(str).value;
    ParseFieldsAsWrittenOfISO(d);
  }

  /**
   * The same for a BS entry, given a converter that maps the AD date back to
   * the BS date it came from.
   */
  lemma BSConversionStable(str: string, cal: Calendar)
    requires ParseAndConvert(str, BS, cal).Some?
    requires var d := ParseFieldsAsWritten(str).value;
      var ad := cal.bsToAd(d).value;
      InRange(ad) && AD_MIN_YEAR <= ad.year <= AD_MAX_YEAR && cal.adToBs(ad) == Some(d)
    ensures ParseAndConvert(ParseAndConvert(str, BS, cal).value.iso, AD, cal) == ParseAndConvert(str, BS, cal)
  {
    var d := ParseFieldsAsWritten(str).value;
    ParseFieldsAsWrittenOfISO(cal.bsToAd(d).value);
  }

  // ---------------------------------------------------------------- the two discrepancies

  lemma Spell1990()
    ensures IntToString(1990) == "1990"
  {
    assert NatToString(19) == "19";
    assert NatToString(199) == "199";
  }

  lemma Spell2000()
    ensures IntToString(2000) == "2000"
  {
    assert NatToString(20) == "20";
    assert NatToString(200) == "200";
  }

  /** The day-first example: year 15, month 6, day 1990 as written. */
  lemma SpellDayFirst()
    ensures FormatISO(Ymd(15, 6, 1990)) == "15-06-1990"
  {
    Spell1990();
    assert IntToString(15) == "15" && IntToString(6) == "6";
    assert PadStart2("1990") == "1990" && PadStart2("6") == "06";
    assert FormatISO(Ymd(15, 6, 1990)) == "15" + "-" + "06" + "-" + "1990";
  }

  /** The month-zero example. */
  lemma SpellMonthZero()
    ensures FormatISO(Ymd(2000, 0, 15)) == "2000-00-15"
  {
    Spell2000();
    assert IntToString(15) == "15" && IntToString(0) == "0";
    assert PadStart2("15") == "15" && PadStart2("0") == "00";
    assert FormatISO(Ymd(2000, 0, 15)) == "2000" + "-" + "00" + "-" + "15";
  }

  /** The written checks reject a day-first date outright. */
  lemma AsWrittenRefusesDayFirst()
    ensures ParseFieldsAsWritten("15-06-1990") == None
  {
    SpellDayFirst();
    ReadPartsOfISO(Ymd(15, 6, 1990));
  }

  /** The written checks accept month 0. */
  lemma AsWrittenAcceptsMonthZero()
    ensures ParseFieldsAsWritten("2000-00-15") == Some(Ymd(2000, 0, 15))
  {
    SpellMonthZero();
    ReadPartsOfISO(Ymd(2000, 0, 15));
  }

  /** The intended checks accept the day-first date the swap is there for. */
  lemma CorrectedReadsDayFirst()
    ensures ParseFields("15-06-1990") == Some(Ymd(1990, 6, 15))
  {
    SpellDayFirst();
    ReadPartsOfISO(Ymd(15, 6, 1990));
  }

  /** The intended checks reject month 0. */
  lemma CorrectedRefusesMonthZero()
    ensures ParseFields("2000-00-15") == None
  {
    SpellMonthZero();
    ReadPartsOfISO(Ymd(2000, 0, 15));
  }

  /**
   * In AD mode the written `parseAndConvert` hands month 0 to the converter
   * and, when the converter answers, reports "2000-00-15" to the form.
   */
  lemma AsWrittenReportsMonthZero(cal: Calendar)
    requires cal.adToBs(Ymd(2000, 0, 15)).Some?
    ensures ParseAndConvert("2000-00-15", AD, cal).Some?
    ensures ParseAndConvert("2000-00-15", AD, cal).value.iso == "2000-00-15"
  {
    AsWrittenAcceptsMonthZero();
    SpellMonthZero();
  }

  /** The intended `parseAndConvert` returns null for "2000-00-15", whatever the converter. */
  lemma CorrectedRefusesMonthZeroEntry(cal: Calendar, mode: Mode)
    ensures ParseAndConvertCorrected("2000-00-15", mode, cal).None?
  {
    CorrectedRefusesMonthZero();
  }

  // ---------------------------------------------------------------- the component

  /** The line shown under the input: the date in the other calendar. */
  function OtherCalendarLine(mode: Mode, c: Converted): string {
    if mode == AD then "BS: " + c.bs else "AD: " + c.ad
  }

  class DateInputBSAD {
    var inputMode: Mode
    var inputValue: string
    var convertedDisplay: string
    var error: string
    /** The values handed to `onChange`, oldest first. */
    var reported: seq<string>
    const calendar: Calendar

    constructor (calendar: Calendar)
      ensures this.calendar == calendar && inputMode == AD
      ensures inputValue == "" && convertedDisplay == "" && error == "" && reported == []
    {
      this.calendar := calendar;
      inputMode := AD;
      inputValue, convertedDisplay, error := "", "", "";
      reported := [];
    }

    /**
     * `handleChange`: the text is shown as typed and the error cleared; blank
     * text reports `''`; text that converts reports its ISO value and shows
     * the other calendar; other text reports nothing and, once it is at least
     * eight UTF-16 code units long, shows 'Invalid date'.
     */
    method HandleChange(str: string)
      modifies this`inputValue, this`convertedDisplay, this`error, this`reported
      ensures inputValue == str && inputMode == old(inputMode)
      ensures IsBlank(str) ==> convertedDisplay == "" && error == "" && reported == old(reported) + [""]
      ensures !IsBlank(str) && ParseAndConvert(str, inputMode, calendar).Some? ==>
        var c := ParseAndConvert(str, inputMode, calendar).value;
        convertedDisplay == OtherCalendarLine(inputMode, c) && error == "" && reported == old(reported) + [c.iso]
      ensures !IsBlank(str) && ParseAndConvert(str, inputMode, calendar).None? ==>
        convertedDisplay == "" && reported == old(reported) && (error == "Invalid date" <==> Utf16Length(str) >= 8)
        && (error == "" <==> Utf16Length(str) < 8)
    {
      inputValue := str;
      error := "";
      if IsBlank(str) {
        convertedDisplay := "";
        reported := reported + [""];
        return;
      }
      var parsed := ParseAndConvert(str, inputMode, calendar);
      if parsed.Some? {
        convertedDisplay := OtherCalendarLine(inputMode, parsed.value);
        reported := reported + [parsed.value.iso];
      } else {
        convertedDisplay := "";
        if Utf16Length(str) >= 8 {
          error := "Invalid date";
        }
      }
    }

    /**
     * `switchMode`: the other calendar becomes the input calendar; text that
     * converts under the old calendar is rewritten in the new one, text that
     * does not is left as it is, and an empty input clears the line below.
     */
    method SwitchMode()
      modifies this`inputMode, this`inputValue, this`convertedDisplay
      ensures inputMode != old(inputMode)
      ensures old(inputValue) == "" ==> inputValue == "" && convertedDisplay == ""
      ensures old(inputValue) != "" && ParseAndConvert(old(inputValue), old(inputMode), calendar).Some? ==>
        var c := ParseAndConvert(old(inputValue), old(inputMode), calendar).value;
        inputValue == (if inputMode == AD then c.ad else c.bs) && convertedDisplay == OtherCalendarLine(inputMode, c)
      ensures old(inputValue) != "" && ParseAndConvert(old(inputValue), old(inputMode), calendar).None? ==>
        inputValue == old(inputValue) && convertedDisplay == old(convertedDisplay)
    {
      var parsed := ParseAndConvert(inputValue, inputMode, calendar);
      var newMode := if inputMode == AD then BS else AD;
      if inputValue == "" {
        convertedDisplay := "";
      } else if parsed.Some? {
        inputValue := if newMode == AD then parsed.value.ad else parsed.value.bs;
        convertedDisplay := OtherCalendarLine(newMode, parsed.value);
      }
      inputMode := newMode;
    }

    /**
     * The effect on the `value` prop: a value that converts as an AD date is
     * shown in its AD spelling with its BS line, clearing the error; an empty
     * value clears the input; any other value changes nothing.
     */
    method SyncFromValue(value: string)
      modifies this`inputValue, this`convertedDisplay, this`error
      ensures value == "" ==> inputValue == "" && convertedDisplay == "" && error == old(error)
      ensures value != "" && ParseAndConvert(value, AD, calendar).Some? ==>
        var c := ParseAndConvert(value, AD, calendar).value;
        inputValue == c.ad && convertedDisplay == "BS: " + c.bs && error == ""
      ensures value != "" && ParseAndConvert(value, AD, calendar).None? ==>
        inputValue == old(inputValue) && convertedDisplay == old(convertedDisplay) && error == old(error)
    {
      if value != "" {
        var parsed := ParseAndConvert(value, AD, calendar);
        if parsed.Some? {
          inputValue := parsed.value.ad;
          convertedDisplay := "BS: " + parsed.value.bs;
          error := "";
        }
      } else {
        inputValue := "";
        convertedDisplay := "";
      }
    }
  }

  /**
   * Typing an AD date and feeding the reported value back through the
   * `value` prop leaves the input showing that date in ISO spelling, with
   * the same BS line as typing produced.
   */
  method TypeThenSync(input: DateInputBSAD, str: string)
    requires input.inputMode == AD && !IsBlank(str) && ParseAndConvert(str, AD, input.calendar).Some?
    modifies input
    ensures input.inputValue == ParseAndConvert(str, AD, input.calendar).value.iso
    ensures input.convertedDisplay == "BS: " + ParseAndConvert(str, AD, input.calendar).value.bs
    ensures input.error == ""
  {
    var c := ParseAndConvert(str, AD, input.calendar).value;
    ADConversionStable(str, input.calendar);
    input.HandleChange(str);
    assert input.reported[|input.reported| - 1] == c.iso;
    input.SyncFromValue(c.iso);
  }
}
