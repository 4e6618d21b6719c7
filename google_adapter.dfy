/** The calendar adapter's list operation: ask the API for events in a window,
    map each returned item to the service's event shape and order them by
    start time. The client construction and the API call are parameters. */
module GoogleAdapter {
  import opened Base
  import opened Models
  import opened GoogleUtils

  /** The page size the adapter asks for. */
  const MaxResults: int := 20

  /** What the adapter asks the API for. */
  datatype ListRequest = ListRequest(calendarId: string, maxResults: int, timeMin: string, timeMax: string)

  /** The calendar API as the adapter sees it: building a client for an access
      token may fail; listing answers with items or an error. */
  datatype CalendarApi = CalendarApi(
    newClient: string -> Option<string>,
    list: (string, ListRequest) -> Result<seq<CalendarEvent>>)

  /** One API item in the service's shape. */
  function ToEvent(item: CalendarEvent, parse: (Layout, string) -> Option<Time>): (e: Event)
    ensures e.id == item.id && e.summary == item.summary
    ensures e.description == item.description && e.location == item.location
    ensures e.startTime == ParseDateTime(item.start, parse) && e.endTime == ParseDateTime(item.end, parse)
  {
    Event(item.id, item.summary, item.description, item.location,
          ParseDateTime(item.start, parse), ParseDateTime(item.end, parse))
  }

  function MapItems(items: seq<CalendarEvent>, parse: (Layout, string) -> Option<Time>): (r: seq<Event>)
    ensures |r| == |items| && forall i :: 0 <= i < |items| ==> r[i] == ToEvent(items[i], parse)
  {
    seq(|items|, i requires 0 <= i < |items| => ToEvent(items[i], parse))
  }

  ghost predicate SortedByStart(s: seq<Event>)
  {
    forall i, j :: 0 <= i < j < |s| ==> s[i].startTime <= s[j].startTime
  }

  method Swap(a: array<Event>, i: int, j: int)
    requires 0 <= i < a.Length && 0 <= j < a.Length
    modifies a
    ensures a[i] == old(a[j]) && a[j] == old(a[i])
    ensures forall k :: 0 <= k < a.Length && k != i && k != j ==> a[k] == old(a[k])
    ensures multiset(a[..]) == old(multiset(a[..]))
  {
    a[i], a[j] := a[j], a[i];
  }

  /** `sort.Slice` by start time: afterwards ordered, and the same events.
      (The library does not promise stability, and neither does this.) */
  method SortByStartTime(a: array<Event>)
    modifies a
    ensures SortedByStart(a[..])
    ensures multiset(a[..]) == old(multiset(a[..]))
  {
    var i := 0;
    while i < a.Length
      invariant 0 <= i <= a.Length
      invariant forall k, l :: 0 <= k < l < i ==> a[k].startTime <= a[l].startTime
      invariant multiset(a[..]) == old(multiset(a[..]))
    {
      var j := i;
      while j > 0 && a[j - 1].startTime > a[j].startTime
        invariant 0 <= j <= i
        invariant forall k, l :: 0 <= k < l <= i && k != j && l != j ==> a[k].startTime <= a[l].startTime
        invariant forall l :: j < l <= i ==> a[j].startTime <= a[l].startTime
        invariant multiset(a[..]) == old(multiset(a[..]))
      {
        Swap(a, j - 1, j);
        j := j - 1;
      }
      i := i + 1;
    }
  }

  /** `ListEvents`: the events of the query's calendar between its bounds. */
  method ListEvents(accessToken: string, query: EventQuery, api: CalendarApi,
                    parse: (Layout, string) -> Option<Time>)
    returns (events: seq<Event>, err: Option<string>, sent: Option<ListRequest>)
    ensures api.newClient(accessToken).Some? ==>
      events == [] && err == api.newClient(accessToken) && sent == None
    ensures api.newClient(accessToken).None? ==>
      sent == Some(ListRequest(query.calendarId, MaxResults, query.from, query.to))
    ensures sent.Some? && api.list(accessToken, sent.value).Err? ==>
      events == [] && err == Some(api.list(accessToken, sent.value).error)
    ensures sent.Some? && api.list(accessToken, sent.value).Ok? ==>
      var items := api.list(accessToken, sent.value).value;
      && err == None
      && |events| == |items|
      && SortedByStart(events)
      && multiset(events) == multiset(MapItems(items, parse))
  {
    var clientErr := api.newClient(accessToken);
    if clientErr.Some? {
      return [], clientErr, None;
    }
    var request := ListRequest(query.calendarId, MaxResults, query.from, query.to);
    sent := Some(request);
    var response := api.list(accessToken, request);
    if response.Err? {
      return [], Some(response.error), sent;
    }
    var items := response.value;

    var eventList: seq<Event> := [];
    var i := 0;
    while i < |items|
      invariant 0 <= i <= |items|
      invariant |eventList| == i
      invariant forall k :: 0 <= k < i ==> eventList[k] == ToEvent(items[k], parse)
    {
      eventList := eventList + [ToEvent(items[i], parse)];
      i := i + 1;
    }
    assert eventList == MapItems(items, parse);

    var a := new Event[|eventList|](k requires 0 <= k < |eventList| => eventList[k]);
    assert a[..] == eventList;
    SortByStartTime(a);
    events, err := a[..], None;
  }
}
