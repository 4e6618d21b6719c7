/** The records the credential pipeline and the calendar service exchange:
    the stored user, the login inputs, the session claims, the service's own
    event shapes and the calendar API's event shapes. */
module Models {
  import opened Base

  /** A stored user; the store keys it by `googleId`. `accessToken` holds ciphertext. */
  datatype User = User(
    id: nat,
    googleId: string,
    folderId: string,
    email: string,
    refreshToken: string,
    accessToken: string,
    expiry: Time,
    name: string)

  /** The profile the identity provider reports at login. */
  datatype GoogleUserInfo = GoogleUserInfo(id: string, email: string, name: string)

  /** The OAuth token pair with the access token's absolute expiry. */
  datatype OAuthToken = OAuthToken(accessToken: string, refreshToken: string, expiry: Time)

  /** Session claims; of the registered claims only the expiry is ever set. */
  datatype Claims = Claims(userId: string, googleId: string, folderId: string, expiresAt: Option<Time>)

  datatype Attendee = Attendee(email: string)

  /** An event as the service's clients create it. */
  datatype CreateEvent = CreateEvent(
    summary: string,
    description: string,
    location: string,
    startTime: Time,
    endTime: Time,
    attendees: seq<Attendee>)

  /** An event as the service's clients edit it. */
  datatype EditEvent = EditEvent(
    id: string,
    summary: string,
    description: string,
    location: string,
    startTime: Time,
    endTime: Time,
    attendees: seq<Attendee>)

  /** An event as the service lists it. */
  datatype Event = Event(
    id: string,
    summary: string,
    description: string,
    location: string,
    startTime: Time,
    endTime: Time)

  /** The list query; an empty bound means "not given". */
  datatype EventQuery = EventQuery(calendarId: string, from: string, to: string)

  /** The calendar API's date-or-date-time value (`date` for all-day events). */
  datatype EventDateTime = EventDateTime(date: string, dateTime: string, timeZone: string)

  datatype EventAttendee = EventAttendee(email: string)

  /** The calendar API's event; an unset string field is "". */
  datatype CalendarEvent = CalendarEvent(
    id: string,
    summary: string,
    description: string,
    location: string,
    start: EventDateTime,
    end: EventDateTime,
    attendees: seq<EventAttendee>)
}
