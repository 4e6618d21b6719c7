/** The calendar service: query defaults for listing, creating a batch of
    events, validating edits and forwarding deletes. The adapter's single-event
    calls are parameters answering with an error or None. */
module CalendarService {
  import opened Base
  import opened Models
  import opened GoogleUtils
  import opened GoogleAdapter

  // ---------------------------------------------------------------------------
  // ListEvents

  /** How far ahead an open-ended listing reaches, in years. */
  const DefaultSpanYears: int := 10

  /** The query as sent on: a missing start is `now`, a missing end ten years on.
      `addDate` stands for `Time.AddDate(years, months, days)`. */
  function ListQuery(q: EventQuery, now: Time, format: Time -> string,
                     addDate: (Time, int, int, int) -> Time): (r: EventQuery)
    ensures r.calendarId == q.calendarId
    ensures q.from != "" ==> r.from == q.from
    ensures q.from == "" ==> r.from == format(now)
    ensures q.to != "" ==> r.to == q.to
    ensures q.to == "" ==> r.to == format(addDate(now, DefaultSpanYears, 0, 0))
  {
    var from := if q.from == "" then format(now) else q.from;
    var to := if q.to == "" then format(addDate(now, DefaultSpanYears, 0, 0)) else q.to;
    EventQuery(q.calendarId, from, to)
  }

  /** With a renderer that never yields "", both bounds are set afterwards and
      filling the defaults again changes nothing, at any later clock. */
  lemma ListQueryIdempotent(q: EventQuery, now: Time, later: Time, format: Time -> string,
                            addDate: (Time, int, int, int) -> Time)
    requires format(now) != "" && format(addDate(now, DefaultSpanYears, 0, 0)) != ""
    ensures ListQuery(q, now, format, addDate).from != "" && ListQuery(q, now, format, addDate).to != ""
    ensures ListQuery(ListQuery(q, now, format, addDate), later, format, addDate) == ListQuery(q, now, format, addDate)
  {
  }

  /** `ListEvents`: fill the defaults, then list through the adapter. */
  method ListEvents(token: string, query: EventQuery, now: Time, format: Time -> string,
                    addDate: (Time, int, int, int) -> Time, api: CalendarApi,
                    parse: (Layout, string) -> Option<Time>)
    returns (events: seq<Event>, err: Option<string>, sent: Option<ListRequest>)
    ensures var q := ListQuery(query, now, format, addDate);
      api.newClient(token).None? ==> sent == Some(ListRequest(query.calendarId, MaxResults, q.from, q.to))
    ensures api.newClient(token).Some? ==> events == [] && err == api.newClient(token) && sent == None
    ensures sent.Some? && api.list(token, sent.value).Err? ==>
      events == [] && err == Some(api.list(token, sent.value).error)
    ensures sent.Some? && api.list(token, sent.value).Ok? ==>
      var items := api.list(token, sent.value).value;
      err == None && SortedByStart(events) && multiset(events) == multiset(MapItems(items, parse))
  {
    events, err, sent := GoogleAdapter.ListEvents(token, ListQuery(query, now, format, addDate), api, parse);
  }

  // ---------------------------------------------------------------------------
  // Create

  /** Did the adapter refuse this event? */
  predicate Refused(token: string, e: CreateEvent, format: Time -> string,
                    createEvent: (string, CalendarEvent) -> Option<string>)
  {
    createEvent(token, AdjustEvent(e, format)).Some?
  }

  /** The summaries of the refused events, in input order. */
  function FailedSummaries(token: string, events: seq<CreateEvent>, format: Time -> string,
                           createEvent: (string, CalendarEvent) -> Option<string>): (r: seq<string>)
    ensures |r| <= |events|
  {
    if events == [] then []
    else (if Refused(token, events[0], format, createEvent) then [events[0].summary] else [])
         + FailedSummaries(token, events[1..], format, createEvent)
  }

  /** Failures of an earlier batch come before those of a later one. */
  lemma {:induction false} FailedSummariesAppend(token: string, xs: seq<CreateEvent>, ys: seq<CreateEvent>,
                                                 format: Time -> string,
                                                 createEvent: (string, CalendarEvent) -> Option<string>)
    ensures FailedSummaries(token, xs + ys, format, createEvent)
            == FailedSummaries(token, xs, format, createEvent) + FailedSummaries(token, ys, format, createEvent)
    decreases |xs|
  {
    if xs != [] {
      assert (xs + ys)[1..] == xs[1..] + ys;
      FailedSummariesAppend(token, xs[1..], ys, format, createEvent);
    } else {
      assert xs + ys == ys;
    }
  }

  /** No summary is listed exactly when the adapter accepted every event. */
  lemma {:induction false} FailedSummariesEmptyIff(token: string, events: seq<CreateEvent>, format: Time -> string,
                                                   createEvent: (string, CalendarEvent) -> Option<string>)
    ensures FailedSummaries(token, events, format, createEvent) == []
            <==> forall i :: 0 <= i < |events| ==> !Refused(token, events[i], format, createEvent)
    decreases |events|
  {
    if events != [] {
      FailedSummariesEmptyIff(token, events[1..], format, createEvent);
      assert forall i :: 1 <= i < |events| ==> events[i] == events[1..][i - 1];
    }
  }

  /** When every event is refused, every summary is listed, in order. */
  lemma {:induction false} FailedSummariesAllRefused(token: string, events: seq<CreateEvent>, format: Time -> string,
                                                     createEvent: (string, CalendarEvent) -> Option<string>)
    requires forall i :: 0 <= i < |events| ==> Refused(token, events[i], format, createEvent)
    ensures |FailedSummaries(token, events, format, createEvent)| == |events|
    ensures forall i :: 0 <= i < |events| ==> FailedSummaries(token, events, format, createEvent)[i] == events[i].summary
    decreases |events|
  {
    if events != [] {
      assert forall i :: 0 <= i < |events[1..]| ==> events[1..][i] == events[i + 1];
      FailedSummariesAllRefused(token, events[1..], format, createEvent);
    }
  }

  /** Go's `%v` rendering of a string slice: the elements between brackets, space separated. */
  function RenderList(items: seq<string>): (r: string)
    ensures |r| >= 2 && r[0] == '[' && r[|r| - 1] == ']'
    ensures r[1..|r| - 1] == JoinSpaced(items)
  {
    "[" + JoinSpaced(items) + "]"
  }

  /** The elements, each followed by one space except the last. */
  function JoinSpaced(items: seq<string>): (r: string)
    ensures items == [] ==> r == ""
    ensures |items| == 1 ==> r == items[0]
    ensures items != [] ==> |items[0]| <= |r| && r[..|items[0]|] == items[0]
    ensures |items| >= 2 ==> |items[0]| < |r| && r[|items[0]|] == ' '
  {
    if items == [] then ""
    else if |items| == 1 then items[0]
    else items[0] + " " + JoinSpaced(items[1..])
  }

  /** No element contains the separator. */
  predicate SpaceFree(items: seq<string>)
  {
    forall i :: 0 <= i < |items| ==> ' ' !in items[i]
  }

  /** Cutting a text at every space (Go's `strings.Split(s, " ")`): always at least
      one piece, no piece holds a space, and joining the pieces gives the text back. */
  function SplitSpaced(s: string): (r: seq<string>)
    ensures |r| >= 1 && SpaceFree(r)
    ensures JoinSpaced(r) == s
  {
    if s == [] then [""]
    else
      var rest := SplitSpaced(s[1..]);
      if s[0] == ' ' then
        assert ([""] + rest)[1..] == rest;
        [""] + rest
      else
        assert ([[s[0]] + rest[0]] + rest[1..])[1..] == rest[1..];
        assert |rest| >= 2 ==> rest[1..] == rest[1..][..];
        [[s[0]] + rest[0]] + rest[1..]
  }

  /** A space-free word followed by a space and more text splits into the word and the rest. */
  lemma {:induction false} SplitSpacedAfterWord(w: string, t: string)
    requires ' ' !in w
    ensures SplitSpaced(w + " " + t) == [w] + SplitSpaced(t)
    decreases |w|
  {
    if w == [] {
      assert (w + " " + t)[1..] == t;
    } else {
      assert (w + " " + t)[1..] == w[1..] + " " + t;
      SplitSpacedAfterWord(w[1..], t);
      assert [w[0]] + w[1..] == w;
    }
  }

  /** A space-free word is one piece. */
  lemma {:induction false} SplitSpacedWord(w: string)
    requires ' ' !in w
    ensures SplitSpaced(w) == [w]
    decreases |w|
  {
    if w != [] {
      SplitSpacedWord(w[1..]);
    }
  }

  /** Splitting the joined elements at spaces gives the elements back, when none holds a space. */
  lemma {:induction false} SplitJoinSpaced(items: seq<string>)
    requires items != [] && SpaceFree(items)
    ensures SplitSpaced(JoinSpaced(items)) == items
    decreases |items|
  {
    if |items| == 1 {
      SplitSpacedWord(items[0]);
    } else {
      assert SpaceFree(items[1..]) by {
        forall i | 0 <= i < |items[1..]| ensures ' ' !in items[1..][i] {
          assert items[1..][i] == items[i + 1];
        }
      }
      SplitJoinSpaced(items[1..]);
      SplitSpacedAfterWord(items[0], JoinSpaced(items[1..]));
    }
  }

  /** How a reader of the message recovers the list: strip the brackets, then
      split at spaces; nothing between the brackets is the empty list. */
  function ReadRenderedList(text: string): seq<string>
    requires |text| >= 2
  {
    var inner := text[1..|text| - 1];
    if inner == "" then [] else SplitSpaced(inner)
  }

  /** The rendered list reads back as the list itself whenever no element holds a
      space (and the list is not the single empty string, which prints as `[]`). */
  lemma RenderListReadsBack(items: seq<string>)
    requires SpaceFree(items) && items != [""]
    ensures ReadRenderedList(RenderList(items)) == items
  {
    if items != [] {
      SplitJoinSpaced(items);
    }
  }

  const CreateFailurePrefix: string := "Failed to create the following events: "

  /** `Create`: send every event, in order, whatever earlier ones did; report
      the refused ones by summary. `sent` lists the events handed to the adapter. */
  method Create(token: string, newEvents: seq<CreateEvent>, format: Time -> string,
                createEvent: (string, CalendarEvent) -> Option<string>)
    returns (err: Option<string>, sent: seq<CalendarEvent>)
    ensures |sent| == |newEvents|
    ensures forall i :: 0 <= i < |newEvents| ==> sent[i] == AdjustEvent(newEvents[i], format)
    ensures err.None? <==> forall i :: 0 <= i < |sent| ==> createEvent(token, sent[i]).None?
    ensures err.Some? ==>
      err.value == CreateFailurePrefix + RenderList(FailedSummaries(token, newEvents, format, createEvent))
  {
    var failedEvents: seq<string> := [];
    sent := [];
    var i := 0;
    while i < |newEvents|
      invariant 0 <= i <= |newEvents|
      invariant |sent| == i
      invariant forall k :: 0 <= k < i ==> sent[k] == AdjustEvent(newEvents[k], format)
      invariant failedEvents == FailedSummaries(token, newEvents[..i], format, createEvent)
    {
      var e := newEvents[i];
      var eventToInsert := AdjustEvent(e, format);
      sent := sent + [eventToInsert];
      var failed := createEvent(token, eventToInsert);
      assert newEvents[..i + 1] == newEvents[..i] + [e];
      FailedSummariesAppend(token, newEvents[..i], [e], format, createEvent);
      if failed.Some? {
        failedEvents := failedEvents + [e.summary];
      }
      i := i + 1;
    }
    assert newEvents[..i] == newEvents;
    FailedSummariesEmptyIff(token, newEvents, format, createEvent);
    if |failedEvents| > 0 {
      return Some(CreateFailurePrefix + RenderList(failedEvents)), sent;
    }
    err := None;
  }

  // ---------------------------------------------------------------------------
  // Update and Delete

  /** What a passthrough call did: the error it returned and the event sent, if any. */
  datatype CallResult = CallResult(err: Option<string>, sent: Option<CalendarEvent>)

  const MissingId: string := "event ID is required"
  const MissingTimes: string := "start time and end time are required"

  /** The edit as a new-event value (lines 61-68). */
  function AsCreateEvent(e: EditEvent): (c: CreateEvent)
    ensures c.summary == e.summary && c.description == e.description && c.location == e.location
    ensures c.startTime == e.startTime && c.endTime == e.endTime && c.attendees == e.attendees
  {
    CreateEvent(e.summary, e.description, e.location, e.startTime, e.endTime, e.attendees)
  }

  /** `Update`: an edit needs an id, then both times; a valid one is shaped like a
      new event, given the edit's id, and sent. */
  function Update(token: string, e: EditEvent, format: Time -> string,
                  updateEvent: (string, CalendarEvent) -> Option<string>): (r: CallResult)
    ensures e.id == "" ==> r == CallResult(Some(MissingId), None)
    ensures e.id != "" && (e.startTime == ZeroTime || e.endTime == ZeroTime) ==>
      r == CallResult(Some(MissingTimes), None)
    ensures r.sent.Some? <==> e.id != "" && e.startTime != ZeroTime && e.endTime != ZeroTime
    ensures r.sent.Some? ==>
      var ev := r.sent.value;
      && r.err == updateEvent(token, ev)
      && ev == AdjustEvent(AsCreateEvent(e), format).(id := e.id)
      && ev.id == e.id && ev.summary == e.summary && ev.description == e.description && ev.location == e.location
      && ev.start.dateTime == format(e.startTime) && ev.end.dateTime == format(e.endTime)
      && |ev.attendees| == |e.attendees|
      && (forall i :: 0 <= i < |e.attendees| ==> ev.attendees[i].email == e.attendees[i].email)
  {
    if e.id == "" then CallResult(Some(MissingId), None)
    else if e.startTime == ZeroTime || e.endTime == ZeroTime then CallResult(Some(MissingTimes), None)
    else
      var ev := AdjustEvent(AsCreateEvent(e), format).(id := e.id);
      CallResult(updateEvent(token, ev), Some(ev))
  }

  /** `Delete`: the token and the event id go to the adapter as they are. */
  datatype DeleteCall = DeleteCall(token: string, eventId: string)

  function Delete(token: string, eventId: string, deleteEvent: (string, string) -> Option<string>)
    : (r: (Option<string>, DeleteCall))
    ensures r.1 == DeleteCall(token, eventId) && r.0 == deleteEvent(r.1.token, r.1.eventId)
  {
    (deleteEvent(token, eventId), DeleteCall(token, eventId))
  }
}
