/**
 * DateTimePickers' MainActivity: the toast texts built from a picked date or
 * time. Each number is written with `Integer.toString`, so there is no zero
 * padding; the month comes from the picker counting from 0.
 */
module DateTimePickers {
  import opened Wrappers
  import opened Ints
  import opened Decimal
  import opened Strings

  /** `dateMessage`: month (shifted to count from 1), day and year, separated by "/". */
  function DateMessage(year: Int32, month: Int32, day: Int32): string
  {
    IntToString(Add(month, 1)) + "/" + IntToString(day) + "/" + IntToString(year)
  }

  /** `timeMessage`: hour and minute separated by ":". */
  function TimeMessage(hourOfDay: Int32, minute: Int32): string
  {
    IntToString(hourOfDay) + ":" + IntToString(minute)
  }

  /** processDatePickerResult: the date prefix text (R.string.date) followed by the message. */
  function ProcessDatePickerResult(dateText: string, year: Int32, month: Int32, day: Int32): string
  {
    dateText + DateMessage(year, month, day)
  }

  /** processTimePickerResult: the time prefix text (R.string.time) followed by the message. */
  function ProcessTimePickerResult(timeText: string, hourOfDay: Int32, minute: Int32): string
  {
    timeText + TimeMessage(hourOfDay, minute)
  }

  lemma NoSeparatorIn(n: int, sep: char)
    requires sep != '-' && !IsDigit(sep)
    ensures sep !in IntToString(n)
  {
  }

  /**
   * The date toast is the prefix, then three "/"-separated decimal fields that
   * read back as the month plus one, the day and the year.
   */
  lemma DateToastFields(dateText: string, year: Int32, month: Int32, day: Int32)
    ensures var toast := ProcessDatePickerResult(dateText, year, month, day);
            && toast[..|dateText|] == dateText
            && var fields := Split(toast[|dateText|..], '/');
            && fields == [IntToString(Add(month, 1)), IntToString(day), IntToString(year)]
            && ParseInt(fields[0]) == Some(Add(month, 1) as int)
            && ParseInt(fields[1]) == Some(day as int)
            && ParseInt(fields[2]) == Some(year as int)
  {
    var m, d, y := IntToString(Add(month, 1)), IntToString(day), IntToString(year);
    var toast := ProcessDatePickerResult(dateText, year, month, day);
    assert toast[|dateText|..] == m + ['/'] + (d + ['/'] + y);
    NoSeparatorIn(Add(month, 1), '/');
    NoSeparatorIn(day, '/');
    NoSeparatorIn(year, '/');
    SplitAfter(m, '/', d + ['/'] + y);
    SplitAfter(d, '/', y);
    SplitNone(y, '/');
    ParseIntToString(Add(month, 1));
    ParseIntToString(day);
    ParseIntToString(year);
  }

  /**
   * For a month the date picker can report (0 for January to 11), the first
   * field of the toast reads back as that month counted from 1, without wrap-around.
   */
  lemma DateToastMonth(dateText: string, year: Int32, month: Int32, day: Int32)
    requires 0 <= month <= 11
    ensures var toast := ProcessDatePickerResult(dateText, year, month, day);
            var fields := Split(toast[|dateText|..], '/');
            && |fields| == 3
            && ParseInt(fields[0]) == Some(month as int + 1)
  {
    DateToastFields(dateText, year, month, day);
  }

  /** The time toast is the prefix, then two ":"-separated decimal fields: hour and minute. */
  lemma TimeToastFields(timeText: string, hourOfDay: Int32, minute: Int32)
    ensures var toast := ProcessTimePickerResult(timeText, hourOfDay, minute);
            && toast[..|timeText|] == timeText
            && var fields := Split(toast[|timeText|..], ':');
            && fields == [IntToString(hourOfDay), IntToString(minute)]
            && ParseInt(fields[0]) == Some(hourOfDay as int)
            && ParseInt(fields[1]) == Some(minute as int)
  {
    var h, m := IntToString(hourOfDay), IntToString(minute);
    var toast := ProcessTimePickerResult(timeText, hourOfDay, minute);
    assert toast[|timeText|..] == h + [':'] + m;
    NoSeparatorIn(hourOfDay, ':');
    NoSeparatorIn(minute, ':');
    SplitAfter(h, ':', m);
    SplitNone(m, ':');
    ParseIntToString(hourOfDay);
    ParseIntToString(minute);
  }

  /** No zero padding: 9 hours 5 minutes is "9:5". */
  lemma NineFive()
    ensures TimeMessage(9, 5) == "9:5"
  {
  }
}
