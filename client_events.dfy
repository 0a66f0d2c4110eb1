/** The events list of the client area, which prints each event's start as "DD/MM/YYYY às HH:MM". */
module ClientEvents {
  import opened JsText
  import MyTickets

  /** The separator between the date and the time: " às " ("at"). */
  const At: string := " \U{00E0}s "

  /**
   * formatarDataHora, from the getters getDate(), getMonth() (zero-based),
   * getFullYear(), getHours() and getMinutes(). It prints the date as the
   * tickets page does, then " às ", then the time as the tickets page does.
   */
  function FormatDateTime(day: int, month: int, year: int, hours: int, minutes: int): (r: string)
    ensures r == MyTickets.FormatDate(day, month, year) + At + MyTickets.FormatTime(hours, minutes)
  {
    var date := PadStart(IntToString(day), 2, '0') + "/" + PadStart(IntToString(month + 1), 2, '0') + "/" + IntToString(year);
    var hh, mi := PadStart(IntToString(hours), 2, '0'), PadStart(IntToString(minutes), 2, '0');
    JoinAssoc(date, hh, mi);
    date + At + hh + ":" + mi
  }

  /**
   * `r` reads "DD/MM/" + `year` + " às HH:MM": a two-digit day, "/", the
   * two-digit zero-based month plus one, "/", the year text, " às ", a
   * two-digit hour, ":" and two-digit minutes.
   */
  ghost predicate DateTimeShape(r: string, year: string, day: int, month: int, hours: int, minutes: int)
  {
    var y := |year|;
    && |r| == y + 15
    && r[2] == '/' && r[5] == '/'
    && AllDigits(r[..2]) && DecimalValue(r[..2]) == day
    && AllDigits(r[3..5]) && DecimalValue(r[3..5]) == month + 1
    && r[6..6 + y] == year
    && r[6 + y..10 + y] == At
    && AllDigits(r[10 + y..12 + y]) && DecimalValue(r[10 + y..12 + y]) == hours
    && r[12 + y] == ':'
    && AllDigits(r[13 + y..]) && DecimalValue(r[13 + y..]) == minutes
  }

  /** Joining a "DD/MM/YYYY" date and an "HH:MM" time around " às " keeps each field at its offset. */
  lemma DateTimeLayout(date: string, time: string, day: int, month: int, hours: int, minutes: int)
    requires |date| >= 6 && |time| == 5
    requires date[2] == '/' && date[5] == '/'
    requires AllDigits(date[..2]) && DecimalValue(date[..2]) == day
    requires AllDigits(date[3..5]) && DecimalValue(date[3..5]) == month + 1
    requires time[2] == ':'
    requires AllDigits(time[..2]) && DecimalValue(time[..2]) == hours
    requires AllDigits(time[3..]) && DecimalValue(time[3..]) == minutes
    ensures DateTimeShape(date + At + time, date[6..], day, month, hours, minutes)
  {
    var r, y := date + At + time, |date| - 6;
    assert r[..2] == date[..2] && r[3..5] == date[3..5];
    assert r[10 + y..12 + y] == time[..2] && r[13 + y..] == time[3..];
  }

  lemma JoinAssoc(date: string, hh: string, mi: string)
    ensures date + At + hh + ":" + mi == date + At + (hh + ":" + mi)
  {
  }

  /** For the values a Date yields, the printed text has the DD/MM/YYYY às HH:MM layout with the year unpadded. */
  lemma FormatDateTimeFields(day: int, month: int, year: int, hours: int, minutes: int)
    requires 1 <= day <= 31 && 0 <= month <= 11 && 0 <= hours <= 23 && 0 <= minutes <= 59
    ensures DateTimeShape(FormatDateTime(day, month, year, hours, minutes), IntToString(year), day, month, hours, minutes)
  {
    var date, time := MyTickets.FormatDate(day, month, year), MyTickets.FormatTime(hours, minutes);
    MyTickets.FormatDateFields(day, month, year);
    MyTickets.FormatTimeFields(hours, minutes);
    DateTimeLayout(date, time, day, month, hours, minutes);
  }
}
