/**
 * The update coordinator: the check on the parsed response, and `_process_data` with its
 * two loops, proved to compute `Schedule.Normalize`.
 */
module Coordinator {
  import opened Wrappers
  import opened Dates
  import opened FractionNames
  import opened Const
  import opened Events
  import opened Schedule

  /** The parsed JSON value of a schedule response: a list of entries, or any other value. */
  datatype Json = JsonList(entries: seq<RawEntry>) | NotAList

  const InvalidFormat := "Invalid response format from API"

  /** The prefix the final `except Exception` handler puts in front of every failure it catches. */
  const UnexpectedPrefix := "Unexpected error: "

  /**
   * Lines 142-144 as intended: an empty or non-list value fails with `InvalidFormat`,
   * and only a non-empty list reaches `_process_data`.
   */
  function CheckPayload(json: Json): (r: Result<seq<RawEntry>, string>)
    ensures r.Success? <==> json.JsonList? && json.entries != []
    ensures r.Success? ==> r.value == json.entries
    ensures r.Failure? ==> r.error == InvalidFormat
  {
    if json.NotAList? || json.entries == [] then Failure(InvalidFormat) else Success(json.entries)
  }

  /**
   * Lines 142-144 as they run: the `UpdateFailed` raised there is inside the `try` of
   * line 68, so the handler of lines 173-175 catches it and raises a new one whose message
   * is prefixed.
   */
  function CheckPayloadAsWritten(json: Json): (r: Result<seq<RawEntry>, string>)
    ensures r.Success? <==> CheckPayload(json).Success?
    ensures r.Success? ==> r == CheckPayload(json)
    ensures r.Failure? ==> r.error == UnexpectedPrefix + CheckPayload(json).error
  {
    match CheckPayload(json)
    case Success(entries) => Success(entries)
    case Failure(message) => Failure(UnexpectedPrefix + message)
  }

  /** The message callers see for an empty list is not the one the check raises. */
  lemma CheckPayloadMessageIsWrapped()
    ensures CheckPayloadAsWritten(JsonList([])).Failure?
    ensures CheckPayloadAsWritten(JsonList([])).error != InvalidFormat
  {
    var m := CheckPayloadAsWritten(JsonList([])).error;
    assert m[..|UnexpectedPrefix|] == UnexpectedPrefix;
    assert |m| > |InvalidFormat|;
  }

  /** `_process_data`: the loop over the items, the sort, and the loop over the fractions. */
  method ProcessData(payload: seq<RawEntry>, today: CalendarDate, table: map<string, string>)
    returns (snap: Snapshot)
    ensures snap == Normalize(payload, today, table)
  {
    if |payload| == 0 {
      return Snapshot(None, None, [], map[], []);
    }
    var data := payload[0];
    var address := data.adres.GetOr("");
    var district := data.dzielnicy.GetOr("");
    var events, fractions, order := CollectPickups(ItemsOf(data), today, table);
    events := SortByStart(events);
    TrackWellFormed(Classified(ItemsOf(data), table));
    fractions := AddNextDates(fractions, order, events, today);
    snap := Snapshot(Some(address), Some(district), events, fractions, order);
  }

  /** Lines 200-239: the events from today on, and each fraction id's first entry. */
  method CollectPickups(items: seq<RawItem>, today: CalendarDate, table: map<string, string>)
    returns (events: seq<Event>, fractions: map<string, Fraction>, order: seq<string>)
    ensures events == Upcoming(Classified(items, table), today)
    ensures FractionTable(fractions, order) == Track(Classified(items, table))
  {
    ghost var cs := Classified(items, table);
    events, fractions, order := [], map[], [];
    var i := 0;
    while i < |items|
      invariant 0 <= i <= |items|
      invariant events == Upcoming(cs[..i], today)
      invariant FractionTable(fractions, order) == Track(cs[..i])
    {
      UpcomingStep(cs, i, today);
      TrackStep(cs, i);
      var item := items[i];
      var eventDateText := DateText(item);
      var fractionId := FractionIdOf(item);
      var fractionName := RawNameOf(item);
      i := i + 1;
      if eventDateText == "" || fractionId == "" {
        continue;
      }
      var parsed := ParseDate(eventDateText);
      if parsed.None? {
        continue;
      }
      var eventDate := parsed.value;
      var translatedName := Translate(fractionName, table);
      if DateLe(today, eventDate) {
        events := events + [Event(eventDate, eventDate, translatedName, "Wywóz: " + translatedName, fractionId, translatedName)];
      }
      if fractionId !in fractions {
        fractions := fractions[fractionId := Fraction(fractionId, translatedName, WasteTypeOf(fractionName), None, None)];
        order := order + [fractionId];
      }
    }
    assert cs[..|items|] == cs;
  }

  /** Lines 245-255: each fraction with an event gets the date of its first one and the days until it. */
  method AddNextDates(fractions: map<string, Fraction>, order: seq<string>, events: seq<Event>, today: CalendarDate)
    returns (result: map<string, Fraction>)
    requires WellFormedTable(FractionTable(fractions, order))
    ensures result == WithNextDates(fractions, events, today)
  {
    result := fractions;
    var j := 0;
    while j < |order|
      invariant 0 <= j <= |order|
      invariant result == PartlyUpdated(fractions, order[..j], events, today)
    {
      var fractionId := order[j];
      OrderStep(fractions, order, j);
      var fractionEvents := FractionEvents(events, fractionId, today);
      var fraction := result[fractionId];
      if fractionEvents != [] {
        var nextDate := fractionEvents[0].start;
        var daysUntil := DaysBetween(today, nextDate);
        fraction := fraction.(nextDate := Some(IsoFormat(nextDate)), daysUntil := Some(daysUntil));
      }
      PartlyUpdatedStep(fractions, order[..j], fractionId, events, today);
      result := result[fractionId := fraction];
      j := j + 1;
    }
    PartlyUpdatedAll(fractions, order, events, today);
  }

  /** The fractions dict after the second loop has visited the ids in `done`. */
  ghost function PartlyUpdated(fractions: map<string, Fraction>, done: seq<string>, events: seq<Event>, today: CalendarDate): map<string, Fraction>
  {
    map id | id in fractions :: if id in done then WithNext(fractions[id], id, events, today) else fractions[id]
  }

  /** The `j`-th id of a well-formed table is a key, and not among the ids before it. */
  lemma OrderStep(fractions: map<string, Fraction>, order: seq<string>, j: int)
    requires WellFormedTable(FractionTable(fractions, order))
    requires 0 <= j < |order|
    ensures order[j] in fractions && order[j] !in order[..j]
    ensures order[..j + 1] == order[..j] + [order[j]]
  {
    assert order[j] in order;
  }

  lemma PartlyUpdatedStep(fractions: map<string, Fraction>, done: seq<string>, id: string, events: seq<Event>, today: CalendarDate)
    requires id in fractions && id !in done
    ensures id in PartlyUpdated(fractions, done, events, today)
    ensures PartlyUpdated(fractions, done, events, today)[id] == fractions[id]
    ensures PartlyUpdated(fractions, done + [id], events, today)
         == PartlyUpdated(fractions, done, events, today)[id := WithNext(fractions[id], id, events, today)]
  {
  }

  /** Once every id of the order is visited, every fraction is updated. */
  lemma PartlyUpdatedAll(fractions: map<string, Fraction>, order: seq<string>, events: seq<Event>, today: CalendarDate)
    requires WellFormedTable(FractionTable(fractions, order))
    ensures PartlyUpdated(fractions, order[..|order|], events, today) == WithNextDates(fractions, events, today)
  {
    assert order[..|order|] == order;
  }

  /** One refresh after a successful fetch: the format check, then `_process_data`. */
  method Refresh(json: Json, today: CalendarDate, table: map<string, string>)
    returns (r: Result<Snapshot, string>)
    ensures r.Failure? <==> json.NotAList? || json.entries == []
    ensures r.Failure? ==> r.error == InvalidFormat
    ensures r.Success? ==> r.value == Normalize(json.entries, today, table)
  {
    match CheckPayload(json)
    case Failure(message) =>
      r := Failure(message);
    case Success(entries) =>
      var snap := ProcessData(entries, today, table);
      r := Success(snap);
  }

  /** The early return of `_process_data` is never taken after the check: a refresh always has an address. */
  lemma CheckedPayloadIsNotEmpty(json: Json, today: CalendarDate, table: map<string, string>)
    requires CheckPayload(json).Success?
    ensures Normalize(CheckPayload(json).value, today, table).address.Some?
    ensures Normalize(CheckPayload(json).value, today, table).district.Some?
  {
  }
}
