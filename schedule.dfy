/**
 * What the coordinator's `_process_data` computes from the schedule payload, written as
 * functions: the raw JSON records, the items it keeps, the events and the per-fraction
 * table, and the snapshot it returns. `Coordinator.ProcessData` computes the same thing
 * with the source's loops.
 */
module Schedule {
  import opened Wrappers
  import opened Dates
  import opened Const
  import opened FractionNames
  import opened Events

  /** `item["frakcja"]`: `None` stands for an absent key. */
  datatype RawFraction = RawFraction(idFrakcja: Option<string>, nazwa: Option<string>)

  /** One element of `harmonogramy`. */
  datatype RawItem = RawItem(data: Option<string>, frakcja: Option<RawFraction>)

  /** One element of the payload list. */
  datatype RawEntry = RawEntry(adres: Option<string>, dzielnicy: Option<string>, harmonogramy: Option<seq<RawItem>>)

  /** One value of the coordinator's `fractions` dict. */
  datatype Fraction = Fraction(id: string, name: string, wasteType: string, nextDate: Option<string>, daysUntil: Option<int>)

  /**
   * The dict `_process_data` returns. `fractionOrder` is the insertion order of the
   * `fractions` dict, which is the order its items are iterated in.
   */
  datatype Snapshot = Snapshot(
    address: Option<string>,
    district: Option<string>,
    events: seq<Event>,
    fractions: map<string, Fraction>,
    fractionOrder: seq<string>)

  /** `item.get("data", "")`. */
  function DateText(item: RawItem): string { item.data.GetOr("") }

  /** `item.get("frakcja", {})`. */
  function FractionOf(item: RawItem): RawFraction { item.frakcja.GetOr(RawFraction(None, None)) }

  /** `frakcja.get("id_frakcja", "")`. */
  function FractionIdOf(item: RawItem): string { FractionOf(item).idFrakcja.GetOr("") }

  /** `frakcja.get("nazwa", "")`. */
  function RawNameOf(item: RawItem): string { FractionOf(item).nazwa.GetOr("") }

  /** An item the loop does not skip: its date, its fraction id, its raw name and its translated name. */
  datatype Pickup = Pickup(date: CalendarDate, id: string, rawName: string, name: string)

  /** The first half of the loop body: `None` for an item the loop skips with `continue`. */
  function Classify(item: RawItem, table: map<string, string>): (r: Option<Pickup>)
    ensures r.Some? ==> r.value.id != ""
  {
    if DateText(item) == "" || FractionIdOf(item) == "" then None
    else match ParseDate(DateText(item))
      case None => None
      case Some(d) => Some(Pickup(d, FractionIdOf(item), RawNameOf(item), Translate(RawNameOf(item), table)))
  }

  /** The event dict appended for a pickup. */
  function EventOf(p: Pickup): Event
  {
    Event(p.date, p.date, p.name, "Wywóz: " + p.name, p.id, p.name)
  }


  /** The loop's reading of every item, in order: what it keeps and what it skips. */
  function Classified(items: seq<RawItem>, table: map<string, string>): (cs: seq<Option<Pickup>>)
    ensures |cs| == |items| && forall i :: 0 <= i < |items| ==> cs[i] == Classify(items[i], table)
  {
    seq(|items|, i requires 0 <= i < |items| => Classify(items[i], table))
  }

  /** What one item appends to `events`: its event when it is kept and not in the past. */
  function UpcomingOf(c: Option<Pickup>, today: CalendarDate): seq<Event>
  {
    match c
    case None => []
    case Some(p) => if DateLe(today, p.date) then [EventOf(p)] else []
  }

  /** The `events` list after the first loop, before the sort. */
  function Upcoming(cs: seq<Option<Pickup>>, today: CalendarDate): seq<Event>
  {
    if cs == [] then [] else Upcoming(cs[..|cs| - 1], today) + UpcomingOf(cs[|cs| - 1], today)
  }

  /** The entry a pickup's fraction id first gets in `fractions`. */
  function NewFraction(p: Pickup): Fraction
  {
    Fraction(p.id, p.name, WasteTypeOf(p.rawName), None, None)
  }

  /** The `fractions` dict: its values and the order its keys were inserted in. */
  datatype FractionTable = FractionTable(byId: map<string, Fraction>, order: seq<string>)

  /** What one item does to `fractions`: a kept item inserts its id unless it is already there. */
  function TrackOne(t: FractionTable, c: Option<Pickup>): FractionTable
  {
    match c
    case None => t
    case Some(p) =>
      if p.id in t.byId then t else FractionTable(t.byId[p.id := NewFraction(p)], t.order + [p.id])
  }

  /** The `fractions` dict after the first loop. */
  function Track(cs: seq<Option<Pickup>>): FractionTable
  {
    if cs == [] then FractionTable(map[], []) else TrackOne(Track(cs[..|cs| - 1]), cs[|cs| - 1])
  }

  /** `[e for e in events if e["fraction_id"] == fraction_id and e["start"] >= now]`. */
  function FractionEvents(events: seq<Event>, id: string, today: CalendarDate): (r: seq<Event>)
    ensures forall e :: e in r <==> e in events && e.fractionId == id && DateLe(today, e.start)
  {
    if events == [] then []
    else
      (if events[0].fractionId == id && DateLe(today, events[0].start) then [events[0]] else [])
      + FractionEvents(events[1..], id, today)
  }

  /** The second loop's body for one fraction. */
  function WithNext(f: Fraction, id: string, events: seq<Event>, today: CalendarDate): Fraction
  {
    var fe := FractionEvents(events, id, today);
    if fe == [] then f
    else f.(nextDate := Some(IsoFormat(fe[0].start)), daysUntil := Some(DaysBetween(today, fe[0].start)))
  }

  /** The `fractions` dict after the second loop. */
  function WithNextDates(byId: map<string, Fraction>, events: seq<Event>, today: CalendarDate): map<string, Fraction>
  {
    map id | id in byId :: WithNext(byId[id], id, events, today)
  }

  /** The items of the first payload entry: `data.get("harmonogramy", [])`. */
  function ItemsOf(entry: RawEntry): seq<RawItem> { entry.harmonogramy.GetOr([]) }

  /** `_process_data(json_data)` with the clock reading `today` and the translation table `table`. */
  function Normalize(payload: seq<RawEntry>, today: CalendarDate, table: map<string, string>): (snap: Snapshot)
    ensures snap.address.Some? <==> payload != []
    ensures snap.district.Some? <==> payload != []
  {
    if payload == [] then Snapshot(None, None, [], map[], [])
    else
      var entry := payload[0];
      var cs := Classified(ItemsOf(entry), table);
      var events := SortByStart(Upcoming(cs, today));
      var t := Track(cs);
      Snapshot(Some(entry.adres.GetOr("")), Some(entry.dzielnicy.GetOr("")), events,
               WithNextDates(t.byId, events, today), t.order)
  }

  // ---------------------------------------------------------------------------------------
  // The payload and the first entry

  /** An empty payload gives no address, no district, no events and no fractions. */
  lemma NormalizeEmpty(today: CalendarDate, table: map<string, string>)
    ensures Normalize([], today, table) == Snapshot(None, None, [], map[], [])
  {
  }

  /** Only the first entry is read; its `adres` and `dzielnicy` are copied, `""` when absent. */
  lemma NormalizeReadsFirstEntry(payload: seq<RawEntry>, today: CalendarDate, table: map<string, string>)
    requires payload != []
    ensures Normalize(payload, today, table) == Normalize(payload[..1], today, table)
    ensures Normalize(payload, today, table).address == Some(payload[0].adres.GetOr(""))
    ensures Normalize(payload, today, table).district == Some(payload[0].dzielnicy.GetOr(""))
  {
  }

  // ---------------------------------------------------------------------------------------
  // Skipped items

  /** The three reasons an item is skipped: an empty date, an empty fraction id, a date that does not parse. */
  lemma SkipReasons(item: RawItem, table: map<string, string>)
    ensures Classify(item, table).None?
        <==> DateText(item) == "" || FractionIdOf(item) == "" || ParseDate(DateText(item)).None?
  {
  }

  /** The events list is built item by item. */
  lemma {:induction false} UpcomingConcat(a: seq<Option<Pickup>>, b: seq<Option<Pickup>>, today: CalendarDate)
    ensures Upcoming(a + b, today) == Upcoming(a, today) + Upcoming(b, today)
    decreases |b|
  {
    if b == [] {
      assert a + b == a;
    } else {
      var b' := b[..|b| - 1];
      assert (a + b)[..|a + b| - 1] == a + b';
      assert (a + b)[|a + b| - 1] == b[|b| - 1];
      UpcomingConcat(a, b', today);
    }
  }

  /** A skipped item, wherever it stands, contributes no event. */
  lemma SkippedItemAddsNoEvent(a: seq<Option<Pickup>>, b: seq<Option<Pickup>>, today: CalendarDate)
    ensures Upcoming(a + [None] + b, today) == Upcoming(a + b, today)
  {
    var skipped: seq<Option<Pickup>> := [None];
    assert Upcoming(skipped, today) == [] by {
      assert skipped[..0] == [];
    }
    assert Upcoming(a + skipped, today) == Upcoming(a, today) by {
      UpcomingConcat(a, skipped, today);
    }
    UpcomingConcat(a + skipped, b, today);
    UpcomingConcat(a, b, today);
  }

  /** A skipped item, wherever it stands, contributes no fraction. */
  lemma SkippedItemAddsNoFraction(a: seq<Option<Pickup>>, b: seq<Option<Pickup>>)
    ensures Track(a + [None] + b) == Track(a + b)
    decreases |b|
  {
    if b == [] {
      assert (a + [None])[..|a|] == a;
      assert a + [None] + b == a + [None] && a + b == a;
    } else {
      var n := |b| - 1;
      assert (a + [None] + b)[..|a| + 1 + n] == a + [None] + b[..n];
      assert (a + b)[..|a| + n] == a + b[..n];
      assert (a + [None] + b)[|a| + 1 + n] == b[n] && (a + b)[|a| + n] == b[n];
      SkippedItemAddsNoFraction(a, b[..n]);
    }
  }

  // ---------------------------------------------------------------------------------------
  // Events

  /** One more item appends its own events. */
  lemma UpcomingStep(cs: seq<Option<Pickup>>, i: nat, today: CalendarDate)
    requires i < |cs|
    ensures Upcoming(cs[..i + 1], today) == Upcoming(cs[..i], today) + UpcomingOf(cs[i], today)
  {
    assert cs[..i + 1][..i] == cs[..i];
  }

  /** One more item updates the table with its own step. */
  lemma TrackStep(cs: seq<Option<Pickup>>, i: nat)
    requires i < |cs|
    ensures Track(cs[..i + 1]) == TrackOne(Track(cs[..i]), cs[i])
  {
    assert cs[..i + 1][..i] == cs[..i];
  }

  /** A kept item dated today or later yields its event. */
  lemma {:induction false} UpcomingHasItem(cs: seq<Option<Pickup>>, i: nat, today: CalendarDate)
    requires i < |cs| && cs[i].Some? && DateLe(today, cs[i].value.date)
    ensures EventOf(cs[i].value) in Upcoming(cs, today)
    decreases |cs|
  {
    var n := |cs| - 1;
    if i < n {
      assert cs[..n][i] == cs[i];
      UpcomingHasItem(cs[..n], i, today);
    }
  }

  /** Every event comes from a kept item dated today or later. */
  lemma {:induction false} UpcomingSource(cs: seq<Option<Pickup>>, e: Event, today: CalendarDate) returns (i: nat)
    requires e in Upcoming(cs, today)
    ensures i < |cs| && cs[i].Some? && DateLe(today, cs[i].value.date) && e == EventOf(cs[i].value)
    decreases |cs|
  {
    var n := |cs| - 1;
    if e in Upcoming(cs[..n], today) {
      i := UpcomingSource(cs[..n], e, today);
      assert cs[..n][i] == cs[i];
    } else {
      i := n;
    }
  }

  /** The shape of every event: from today on, one day long, titled by the translated name. */
  lemma EventShape(cs: seq<Option<Pickup>>, e: Event, today: CalendarDate)
    requires e in Upcoming(cs, today)
    ensures DateLe(today, e.start) && e.start == e.end
    ensures e.summary == e.fractionName && e.description == "Wywóz: " + e.summary
  {
    var i := UpcomingSource(cs, e, today);
  }

  /** Every event of a payload comes from one of its first entry's items and carries its fields. */
  lemma EventOfItem(items: seq<RawItem>, e: Event, today: CalendarDate, table: map<string, string>)
    returns (i: nat)
    requires e in Upcoming(Classified(items, table), today)
    ensures i < |items| && Classify(items[i], table).Some?
    ensures var p := Classify(items[i], table).value;
      && e == EventOf(p) && DateLe(today, p.date)
      && p.date == ParseDate(DateText(items[i])).value
      && e.fractionId == FractionIdOf(items[i]) != ""
      && e.summary == Translate(RawNameOf(items[i]), table)
  {
    i := UpcomingSource(Classified(items, table), e, today);
  }

  /** The published events: the kept ones, sorted by start date, same-day events in input order. */
  lemma SnapshotEvents(payload: seq<RawEntry>, today: CalendarDate, table: map<string, string>, d: CalendarDate)
    requires payload != []
    ensures var events := Normalize(payload, today, table).events;
      var upcoming := Upcoming(Classified(ItemsOf(payload[0]), table), today);
      && multiset(events) == multiset(upcoming)
      && SortedByStart(events)
      && OnDate(events, d) == OnDate(upcoming, d)
  {
    var upcoming := Upcoming(Classified(ItemsOf(payload[0]), table), today);
    SortPermutes(upcoming);
    SortSorted(upcoming);
    SortStable(upcoming, d);
  }

  // ---------------------------------------------------------------------------------------
  // Fractions

  /** The order lists each key once, and each entry carries its own id and no next date yet. */
  ghost predicate WellFormedTable(t: FractionTable)
  {
    && (forall id :: id in t.byId <==> id in t.order)
    && (forall i, j :: 0 <= i < j < |t.order| ==> t.order[i] != t.order[j])
    && (forall id :: id in t.byId ==> t.byId[id].id == id)
    && (forall id :: id in t.byId ==> t.byId[id].nextDate.None? && t.byId[id].daysUntil.None?)
  }

  lemma TrackOneWellFormed(t: FractionTable, c: Option<Pickup>)
    requires WellFormedTable(t)
    ensures WellFormedTable(TrackOne(t, c))
  {
    if c.Some? && c.value.id !in t.byId {
      var t' := TrackOne(t, c);
      forall i, j | 0 <= i < j < |t'.order|
        ensures t'.order[i] != t'.order[j]
      {
        if j == |t.order| {
          assert t'.order[i] in t.order;
        } else {
          assert t'.order[i] == t.order[i] && t'.order[j] == t.order[j];
        }
      }
    }
  }

  /** The table the first loop builds is well formed. */
  lemma {:induction false} TrackWellFormed(cs: seq<Option<Pickup>>)
    ensures WellFormedTable(Track(cs))
    decreases |cs|
  {
    if cs != [] {
      TrackWellFormed(cs[..|cs| - 1]);
      TrackOneWellFormed(Track(cs[..|cs| - 1]), cs[|cs| - 1]);
    }
  }

  /** An id is in the table exactly when some kept item, past or future, carries it. */
  lemma {:induction false} TrackKeys(cs: seq<Option<Pickup>>, id: string)
    ensures id in Track(cs).byId <==> exists i :: 0 <= i < |cs| && cs[i].Some? && cs[i].value.id == id
    decreases |cs|
  {
    if cs != [] {
      var n := |cs| - 1;
      TrackKeys(cs[..n], id);
      if id in Track(cs[..n]).byId {
        var i :| 0 <= i < n && cs[..n][i].Some? && cs[..n][i].value.id == id;
        assert cs[i] == cs[..n][i];
      }
      if exists i :: 0 <= i < |cs| && cs[i].Some? && cs[i].value.id == id {
        var i :| 0 <= i < |cs| && cs[i].Some? && cs[i].value.id == id;
        if i < n {
          assert cs[..n][i] == cs[i];
        }
      }
    }
  }

  /** An id's entry holds the name and the waste type of the first kept item that carries it. */
  lemma {:induction false} TrackFirstOccurrence(cs: seq<Option<Pickup>>, i: nat)
    requires i < |cs| && cs[i].Some?
    requires forall j :: 0 <= j < i && cs[j].Some? ==> cs[j].value.id != cs[i].value.id
    ensures cs[i].value.id in Track(cs).byId && Track(cs).byId[cs[i].value.id] == NewFraction(cs[i].value)
    decreases |cs|
  {
    var p := cs[i].value;
    var n := |cs| - 1;
    if i < n {
      forall j | 0 <= j < i && cs[..n][j].Some?
        ensures cs[..n][j].value.id != p.id
      {
        assert cs[..n][j] == cs[j];
      }
      assert cs[..n][i] == cs[i];
      TrackFirstOccurrence(cs[..n], i);
    } else {
      TrackKeys(cs[..n], p.id);
    }
  }

  // ---------------------------------------------------------------------------------------
  // Next dates

  /** The first of a sorted list's events for one fraction is the earliest of them. */
  lemma {:induction false} FirstFractionEventIsEarliest(events: seq<Event>, id: string, today: CalendarDate)
    requires SortedByStart(events) && FractionEvents(events, id, today) != []
    ensures var first := FractionEvents(events, id, today)[0];
      forall e :: e in events && e.fractionId == id && DateLe(today, e.start) ==> DateLe(first.start, e.start)
    decreases |events|
  {
    var first := FractionEvents(events, id, today)[0];
    if events[0].fractionId == id && DateLe(today, events[0].start) {
      assert first == events[0];
      forall e | e in events
        ensures DateLe(events[0].start, e.start)
      {
        var k :| 0 <= k < |events| && events[k] == e;
        if k > 0 {
          assert DateLe(events[0].start, events[k].start);
        }
      }
    } else {
      SortedTail(events);
      FirstFractionEventIsEarliest(events[1..], id, today);
      forall e | e in events && e.fractionId == id && DateLe(today, e.start)
        ensures e in events[1..]
      {
        var k :| 0 <= k < |events| && events[k] == e;
        assert events[1..][k - 1] == e;
      }
    }
  }

  /**
   * For sorted events none of which is in the past, the second loop sets `next_date` and
   * `days_until` exactly when the fraction has an event, to the earliest one.
   */
  lemma NextDateOf(byId: map<string, Fraction>, events: seq<Event>, today: CalendarDate, id: string)
    returns (next: Event)
    requires id in byId && byId[id].nextDate.None? && byId[id].daysUntil.None?
    requires SortedByStart(events) && forall e :: e in events ==> DateLe(today, e.start)
    ensures var f := WithNextDates(byId, events, today)[id];
      && f.id == byId[id].id && f.name == byId[id].name && f.wasteType == byId[id].wasteType
      && (f.nextDate.None? <==> f.daysUntil.None?)
      && (f.nextDate.None? <==> forall e :: e in events ==> e.fractionId != id)
      && (f.nextDate.Some? ==>
            && next in events && next.fractionId == id
            && f.nextDate == Some(IsoFormat(next.start))
            && f.daysUntil == Some(DaysBetween(today, next.start))
            && f.daysUntil.value >= 0
            && forall e :: e in events && e.fractionId == id ==> DateLe(next.start, e.start))
  {
    var fe := FractionEvents(events, id, today);
    assert WithNextDates(byId, events, today)[id] == WithNext(byId[id], id, events, today);
    next := Event(today, today, "", "", "", "");
    if fe != [] {
      next := fe[0];
      assert next in fe;
      FirstFractionEventIsEarliest(events, id, today);
      DaysBetweenNonNegative(today, next.start);
    }
  }

  /** The published events are sorted and none of them is in the past. */
  lemma SnapshotEventsAreUpcoming(payload: seq<RawEntry>, today: CalendarDate, table: map<string, string>)
    requires payload != []
    ensures SortedByStart(Normalize(payload, today, table).events)
    ensures forall e :: e in Normalize(payload, today, table).events ==> DateLe(today, e.start)
  {
    var cs := Classified(ItemsOf(payload[0]), table);
    var upcoming := Upcoming(cs, today);
    SortPermutes(upcoming);
    SortSorted(upcoming);
    forall e | e in Normalize(payload, today, table).events
      ensures DateLe(today, e.start)
    {
      assert e in multiset(upcoming);
      EventShape(cs, e, today);
    }
  }

  /** The fractions of a snapshot: the table the first loop builds, with next dates added. */
  lemma SnapshotFractions(payload: seq<RawEntry>, id: string, today: CalendarDate, table: map<string, string>)
    returns (next: Event)
    requires payload != []
    ensures var snap := Normalize(payload, today, table);
      var cs := Classified(ItemsOf(payload[0]), table);
      && snap.fractionOrder == Track(cs).order
      && (id in snap.fractions <==> exists i :: 0 <= i < |cs| && cs[i].Some? && cs[i].value.id == id)
      && (id in snap.fractions ==>
            var f := snap.fractions[id];
            && f.id == id && f.name == Track(cs).byId[id].name && f.wasteType == Track(cs).byId[id].wasteType
            && (f.nextDate.None? <==> f.daysUntil.None?)
            && (f.nextDate.None? <==> forall e :: e in snap.events ==> e.fractionId != id)
            && (f.nextDate.Some? ==>
                  && next in snap.events && next.fractionId == id
                  && f.nextDate == Some(IsoFormat(next.start))
                  && ParseDate(f.nextDate.value) == Some(next.start)
                  && f.daysUntil == Some(DaysBetween(today, next.start)) && f.daysUntil.value >= 0
                  && forall e :: e in snap.events && e.fractionId == id ==> DateLe(next.start, e.start)))
  {
    var snap := Normalize(payload, today, table);
    var cs := Classified(ItemsOf(payload[0]), table);
    TrackKeys(cs, id);
    TrackWellFormed(cs);
    next := Event(today, today, "", "", "", "");
    if id in snap.fractions {
      SnapshotEventsAreUpcoming(payload, today, table);
      next := NextDateOf(Track(cs).byId, snap.events, today, id);
      if snap.fractions[id].nextDate.Some? {
        ParseIsoFormat(next.start);
      }
    }
  }
}
