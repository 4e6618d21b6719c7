/** Shaping events for the calendar API and reading its date values back.
    RFC 3339 rendering and parsing are parameters: `format` renders an instant
    as an RFC 3339 (section 5.6) date-time, `parse` reads a string in a layout
    and fails with None. */
module GoogleUtils {
  import opened Base
  import opened Models

  const EventTimeZone: string := "Asia/Jakarta"

  /** The layouts `ParseDateTime` uses: RFC 3339 date-time, and the full date "2006-01-02". */
  datatype Layout = RFC3339 | FullDate

  /** `AdjustEvent`: the API event for a new event, both ends in the Jakarta zone. */
  function AdjustEvent(e: CreateEvent, format: Time -> string): (r: CalendarEvent)
    ensures |r.attendees| == |e.attendees|
    ensures forall i :: 0 <= i < |e.attendees| ==> r.attendees[i].email == e.attendees[i].email
    ensures r.summary == e.summary && r.description == e.description && r.location == e.location
    ensures r.start.dateTime == format(e.startTime) && r.start.timeZone == EventTimeZone && r.start.date == ""
    ensures r.end.dateTime == format(e.endTime) && r.end.timeZone == EventTimeZone && r.end.date == ""
    ensures r.id == ""
  {
    var attendees := seq(|e.attendees|, i requires 0 <= i < |e.attendees| => EventAttendee(e.attendees[i].email));
    CalendarEvent("", e.summary, e.description, e.location,
                  EventDateTime("", format(e.startTime), EventTimeZone),
                  EventDateTime("", format(e.endTime), EventTimeZone),
                  attendees)
  }

  /** `time.Parse` with the error dropped: a failure gives the zero time. */
  function OrZero(t: Option<Time>): (r: Time)
    ensures t.Some? ==> r == t.value
    ensures t.None? ==> r == ZeroTime
  {
    if t.Some? then t.value else ZeroTime
  }

  /** `ParseDateTime`: the date-time if present, otherwise the all-day date. */
  function ParseDateTime(dt: EventDateTime, parse: (Layout, string) -> Option<Time>): (t: Time)
    ensures dt.dateTime != "" ==> t == OrZero(parse(RFC3339, dt.dateTime))
    ensures dt.dateTime == "" ==> t == OrZero(parse(FullDate, dt.date))
    ensures t != ZeroTime ==>
      (dt.dateTime != "" && parse(RFC3339, dt.dateTime) == Some(t))
      || (dt.dateTime == "" && parse(FullDate, dt.date) == Some(t))
  {
    if dt.dateTime != "" then OrZero(parse(RFC3339, dt.dateTime))
    else OrZero(parse(FullDate, dt.date))
  }

  /** Shaping an event and reading its bounds back returns its start and end,
      under the hypothesis that parsing inverts rendering at those two instants. */
  lemma AdjustThenParse(e: CreateEvent, format: Time -> string, parse: (Layout, string) -> Option<Time>)
    requires format(e.startTime) != "" && parse(RFC3339, format(e.startTime)) == Some(e.startTime)
    requires format(e.endTime) != "" && parse(RFC3339, format(e.endTime)) == Some(e.endTime)
    ensures ParseDateTime(AdjustEvent(e, format).start, parse) == e.startTime
    ensures ParseDateTime(AdjustEvent(e, format).end, parse) == e.endTime
  {
  }

  /** The attendee list can be read back: the e-mail addresses are those of the input, in order. */
  lemma AdjustEventKeepsAttendees(e: CreateEvent, format: Time -> string)
    ensures seq(|AdjustEvent(e, format).attendees|,
                i requires 0 <= i < |AdjustEvent(e, format).attendees| => Attendee(AdjustEvent(e, format).attendees[i].email))
            == e.attendees
  {
  }
}
