/**
 * The calendar entity: the next event it shows, and the events it lists for a date range.
 * Both build calendar events from the coordinator's sorted `events`.
 */
module Calendar {
  import opened Wrappers
  import opened Dates
  import opened Events
  import opened Schedule

  /** Home Assistant's `CalendarEvent` as this entity fills it: whole-day dates, no location. */
  datatype CalendarEvent = CalendarEvent(
    start: CalendarDate,
    end: CalendarDate,
    summary: string,
    description: string,
    location: Option<string>,
    uid: string)

  /** The calendar's `unique_id`: the config entry's id followed by `_calendar`. */
  function UniqueId(entryId: string): (u: string)
    ensures |u| == |entryId| + 9 && u[..|entryId|] == entryId && u[|entryId|..] == "_calendar"
  {
    entryId + "_calendar"
  }

  /** `f"{unique_id}_{fraction_id}_{date.isoformat()}"`. */
  function Uid(uniqueId: string, fractionId: string, d: CalendarDate): (uid: string)
    ensures |uid| == |uniqueId| + |fractionId| + 12
  {
    uniqueId + "_" + fractionId + "_" + IsoFormat(d)
  }

  /** The uid ends in the event's ISO date, which reads back as that date. */
  lemma UidEndsInDate(uniqueId: string, fractionId: string, d: CalendarDate)
    ensures var uid := Uid(uniqueId, fractionId, d);
      && uid[..|uniqueId|] == uniqueId
      && uid[|uid| - 11] == '_'
      && ParseDate(uid[|uid| - 10..]) == Some(d)
  {
    var uid := Uid(uniqueId, fractionId, d);
    assert uid[|uid| - 10..] == IsoFormat(d);
    ParseIsoFormat(d);
  }

  /** The unique id, the fraction id, the ISO date and the two `_` between them sit at fixed places in the uid. */
  lemma UidParts(uniqueId: string, fractionId: string, d: CalendarDate)
    ensures var uid := Uid(uniqueId, fractionId, d);
      && uid[..|uniqueId|] == uniqueId
      && uid[|uniqueId|] == '_'
      && uid[|uniqueId| + 1..|uid| - 11] == fractionId
      && uid[|uid| - 11] == '_'
      && uid[|uid| - 10..] == IsoFormat(d)
  {
    var x := uniqueId + "_";
    var y := x + fractionId;
    var z := y + "_";
    var uid := z + IsoFormat(d);
    assert uid == Uid(uniqueId, fractionId, d);
    assert uid[|z|..] == IsoFormat(d);
    assert uid[..|y|] == y;
    assert y[|x|..] == fractionId;
    assert uid[|x|..|y|] == y[|x|..];
    assert uid[..|x|] == x;
    assert uid[..|z|] == z;
  }

  /** Two events of one calendar share a uid only when they have the same fraction and date. */
  lemma UidsDiffer(uniqueId: string, f1: string, d1: CalendarDate, f2: string, d2: CalendarDate)
    requires Uid(uniqueId, f1, d1) == Uid(uniqueId, f2, d2)
    ensures f1 == f2 && d1 == d2
  {
    UidParts(uniqueId, f1, d1);
    UidParts(uniqueId, f2, d2);
    ParseIsoFormat(d1);
    ParseIsoFormat(d2);
  }

  /** The uids of one entry's calendar start with the entry id and tell its events apart. */
  lemma EntryUids(entryId: string, f1: string, d1: CalendarDate, f2: string, d2: CalendarDate)
    ensures Uid(UniqueId(entryId), f1, d1)[..|entryId|] == entryId
    ensures Uid(UniqueId(entryId), f1, d1) == Uid(UniqueId(entryId), f2, d2) ==> f1 == f2 && d1 == d2
  {
    var u := UniqueId(entryId);
    UidEndsInDate(u, f1, d1);
    assert Uid(u, f1, d1)[..|entryId|] == u[..|entryId|];
    if Uid(u, f1, d1) == Uid(u, f2, d2) {
      UidsDiffer(u, f1, d1, f2, d2);
    }
  }

  /** The calendar event for one stored event. */
  function ToCalendarEvent(e: Event, uniqueId: string): CalendarEvent
  {
    CalendarEvent(e.start, e.start, e.summary, e.description, None, Uid(uniqueId, e.fractionId, e.start))
  }

  /** The `event` property: nothing without data or events, else the first stored event. */
  function NextEvent(data: Option<Snapshot>, uniqueId: string): (r: Option<CalendarEvent>)
    ensures r.None? <==> data.None? || data.value.events == []
    ensures r.Some? ==> r.value == ToCalendarEvent(data.value.events[0], uniqueId)
  {
    if data.None? || data.value.events == [] then None
    else Some(ToCalendarEvent(data.value.events[0], uniqueId))
  }

  /** After a refresh the next event is the earliest stored one, and it is not in the past. */
  lemma NextEventIsEarliest(payload: seq<RawEntry>, today: CalendarDate, table: map<string, string>, uniqueId: string)
    requires payload != []
    ensures var snap := Normalize(payload, today, table);
      var r := NextEvent(Some(snap), uniqueId);
      r.Some? ==>
        && DateLe(today, r.value.start)
        && r.value.start == r.value.end
        && forall e :: e in snap.events ==> DateLe(r.value.start, e.start)
  {
    var snap := Normalize(payload, today, table);
    SnapshotEventsAreUpcoming(payload, today, table);
    if snap.events != [] {
      forall e | e in snap.events
        ensures DateLe(snap.events[0].start, e.start)
      {
        var k :| 0 <= k < |snap.events| && snap.events[k] == e;
        if k > 0 {
          assert DateLe(snap.events[0].start, snap.events[k].start);
        }
      }
    }
  }

  /** `start_date_date <= event_start_date <= end_date_date`. */
  predicate InRange(e: Event, from: CalendarDate, to: CalendarDate)
  {
    DateLe(from, e.start) && DateLe(e.start, to)
  }

  /** The calendar events of the stored events that lie in the range, in stored order. */
  function RangeEvents(events: seq<Event>, from: CalendarDate, to: CalendarDate, uniqueId: string): (r: seq<CalendarEvent>)
    ensures |r| <= |events|
  {
    if events == [] then []
    else
      var last := events[|events| - 1];
      RangeEvents(events[..|events| - 1], from, to, uniqueId)
      + (if InRange(last, from, to) then [ToCalendarEvent(last, uniqueId)] else [])
  }

  /** `async_get_events`: nothing without data or events, else its loop over the stored events. */
  method GetEvents(data: Option<Snapshot>, from: CalendarDate, to: CalendarDate, uniqueId: string)
    returns (result: seq<CalendarEvent>)
    ensures data.None? ==> result == []
    ensures data.Some? ==> result == RangeEvents(data.value.events, from, to, uniqueId)
  {
    if data.None? || data.value.events == [] {
      return [];
    }
    var events := data.value.events;
    result := [];
    var i := 0;
    while i < |events|
      invariant 0 <= i <= |events|
      invariant result == RangeEvents(events[..i], from, to, uniqueId)
    {
      assert events[..i + 1][..i] == events[..i];
      var eventData := events[i];
      var eventStartDate := eventData.start;
      if DateLe(from, eventStartDate) && DateLe(eventStartDate, to) {
        result := result + [CalendarEvent(eventStartDate, eventStartDate, eventData.summary, eventData.description,
                                          None, Uid(uniqueId, eventData.fractionId, eventStartDate))];
      }
      i := i + 1;
    }
    assert events[..|events|] == events;
  }

  /** The range query is a filter: it distributes over concatenation. */
  lemma {:induction false} RangeEventsConcat(a: seq<Event>, b: seq<Event>, from: CalendarDate, to: CalendarDate, uniqueId: string)
    ensures RangeEvents(a + b, from, to, uniqueId) == RangeEvents(a, from, to, uniqueId) + RangeEvents(b, from, to, uniqueId)
    decreases |b|
  {
    if b == [] {
      assert a + b == a;
    } else {
      var b' := b[..|b| - 1];
      assert (a + b)[..|a + b| - 1] == a + b';
      assert (a + b)[|a + b| - 1] == b[|b| - 1];
      RangeEventsConcat(a, b', from, to, uniqueId);
    }
  }

  /** Every listed event is one of the stored events in the range. */
  lemma {:induction false} RangeEventsSource(events: seq<Event>, c: CalendarEvent, from: CalendarDate, to: CalendarDate, uniqueId: string)
    returns (i: nat)
    requires c in RangeEvents(events, from, to, uniqueId)
    ensures i < |events| && InRange(events[i], from, to) && c == ToCalendarEvent(events[i], uniqueId)
    decreases |events|
  {
    var n := |events| - 1;
    if c in RangeEvents(events[..n], from, to, uniqueId) {
      i := RangeEventsSource(events[..n], c, from, to, uniqueId);
      assert events[..n][i] == events[i];
    } else {
      i := n;
    }
  }

  /** Every stored event in the range is listed. */
  lemma {:induction false} RangeEventsComplete(events: seq<Event>, i: nat, from: CalendarDate, to: CalendarDate, uniqueId: string)
    requires i < |events| && InRange(events[i], from, to)
    ensures ToCalendarEvent(events[i], uniqueId) in RangeEvents(events, from, to, uniqueId)
    decreases |events|
  {
    var n := |events| - 1;
    if i < n {
      assert events[..n][i] == events[i];
      RangeEventsComplete(events[..n], i, from, to, uniqueId);
    }
  }

  /** Sorted stored events give a sorted listing. */
  lemma {:induction false} RangeEventsSorted(events: seq<Event>, from: CalendarDate, to: CalendarDate, uniqueId: string)
    requires SortedByStart(events)
    ensures var r := RangeEvents(events, from, to, uniqueId);
      forall i, j :: 0 <= i < j < |r| ==> DateLe(r[i].start, r[j].start)
    decreases |events|
  {
    if events != [] {
      var n := |events| - 1;
      var prefix := RangeEvents(events[..n], from, to, uniqueId);
      assert SortedByStart(events[..n]) by {
        forall i, j | 0 <= i < j < n
          ensures DateLe(events[..n][i].start, events[..n][j].start)
        {
          assert events[..n][i] == events[i] && events[..n][j] == events[j];
        }
      }
      RangeEventsSorted(events[..n], from, to, uniqueId);
      forall k | 0 <= k < |prefix|
        ensures DateLe(prefix[k].start, events[n].start)
      {
        var i := RangeEventsSource(events[..n], prefix[k], from, to, uniqueId);
        assert events[..n][i] == events[i];
      }
    }
  }

  /** An empty range lists nothing. */
  lemma {:induction false} EmptyRange(events: seq<Event>, from: CalendarDate, to: CalendarDate, uniqueId: string)
    requires DateLt(to, from)
    ensures RangeEvents(events, from, to, uniqueId) == []
    decreases |events|
  {
    if events != [] {
      EmptyRange(events[..|events| - 1], from, to, uniqueId);
      var e := events[|events| - 1];
      if InRange(e, from, to) {
        OrdinalOrder(from, e.start);
        OrdinalOrder(e.start, to);
        OrdinalOrder(from, to);
        assert false;
      }
    }
  }
}
