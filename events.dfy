/**
 * The calendar events the coordinator publishes, and `events.sort(key=lambda x: x["start"])`:
 * Python's list sort is stable, so it is modelled by a stable insertion sort on the start date.
 */
module Events {
  import opened Dates

  /** One entry of the coordinator's `events` list. */
  datatype Event = Event(
    start: CalendarDate,
    end: CalendarDate,
    summary: string,
    description: string,
    fractionId: string,
    fractionName: string)

  /** Non-decreasing by start date. */
  predicate SortedByStart(s: seq<Event>)
  {
    forall i, j :: 0 <= i < j < |s| ==> DateLe(s[i].start, s[j].start)
  }

  /** The events that start on day `d`, in their order in `s`. */
  function OnDate(s: seq<Event>, d: CalendarDate): (r: seq<Event>)
    ensures |r| <= |s|
  {
    if s == [] then []
    else (if s[0].start == d then [s[0]] else []) + OnDate(s[1..], d)
  }

  /** Puts `e` in front of the first event that does not start before it. */
  function Insert(e: Event, s: seq<Event>): (r: seq<Event>)
    ensures multiset(r) == multiset(s) + multiset{e}
    ensures |r| == |s| + 1
  {
    if s == [] || DateLe(e.start, s[0].start) then [e] + s
    else
      assert s == [s[0]] + s[1..];
      [s[0]] + Insert(e, s[1..])
  }

  /** `list.sort` keyed by the start date. */
  function SortByStart(s: seq<Event>): (r: seq<Event>)
    ensures |r| == |s|
  {
    if s == [] then [] else Insert(s[0], SortByStart(s[1..]))
  }

  lemma DateLeTotal(a: Date, b: Date)
    ensures DateLe(a, b) || DateLe(b, a)
  {
  }

  lemma {:induction false} InsertSorted(e: Event, s: seq<Event>)
    requires SortedByStart(s)
    ensures SortedByStart(Insert(e, s))
  {
    if s == [] || DateLe(e.start, s[0].start) {
      forall k | 0 <= k < |s|
        ensures DateLe(e.start, s[k].start)
      {
        if k > 0 {
          assert DateLe(s[0].start, s[k].start);
        }
      }
      SortedCons(e, s);
    } else {
      DateLeTotal(e.start, s[0].start);
      SortedTail(s);
      InsertSorted(e, s[1..]);
      var t := Insert(e, s[1..]);
      forall k | 0 <= k < |t|
        ensures DateLe(s[0].start, t[k].start)
      {
        assert t[k] in multiset(t);
        if t[k] != e {
          assert t[k] in multiset(s[1..]);
          var m :| 0 <= m < |s[1..]| && s[1..][m] == t[k];
          assert s[m + 1] == t[k];
        }
      }
      SortedCons(s[0], t);
    }
  }

  /** An event no later than every event of a sorted list can go in front of it. */
  lemma SortedCons(x: Event, t: seq<Event>)
    requires SortedByStart(t)
    requires forall k :: 0 <= k < |t| ==> DateLe(x.start, t[k].start)
    ensures SortedByStart([x] + t)
  {
    var r := [x] + t;
    forall i, j | 0 <= i < j < |r|
      ensures DateLe(r[i].start, r[j].start)
    {
      assert r[j] == t[j - 1];
      if i > 0 {
        assert r[i] == t[i - 1];
      }
    }
  }

  /** The sorted events are ordered by start date. */
  lemma {:induction false} SortSorted(s: seq<Event>)
    ensures SortedByStart(SortByStart(s))
  {
    if s != [] {
      SortSorted(s[1..]);
      InsertSorted(s[0], SortByStart(s[1..]));
    }
  }

  /** Sorting only reorders: the same events, each as often as before. */
  lemma {:induction false} SortPermutes(s: seq<Event>)
    ensures multiset(SortByStart(s)) == multiset(s)
  {
    if s != [] {
      SortPermutes(s[1..]);
      assert s == [s[0]] + s[1..];
    }
  }

  lemma {:induction false} OnDateConcat(a: seq<Event>, b: seq<Event>, d: CalendarDate)
    ensures OnDate(a + b, d) == OnDate(a, d) + OnDate(b, d)
  {
    if a == [] {
      assert a + b == b;
    } else {
      assert (a + b)[0] == a[0];
      assert (a + b)[1..] == a[1..] + b;
      OnDateConcat(a[1..], b, d);
    }
  }

  /** The tail of a sorted list is sorted. */
  lemma SortedTail(events: seq<Event>)
    requires events != [] && SortedByStart(events)
    ensures SortedByStart(events[1..])
  {
    forall i, j | 0 <= i < j < |events[1..]|
      ensures DateLe(events[1..][i].start, events[1..][j].start)
    {
      assert events[1..][i] == events[i + 1] && events[1..][j] == events[j + 1];
    }
  }

  lemma OnDateCons(x: Event, t: seq<Event>, d: CalendarDate)
    ensures OnDate([x] + t, d) == (if x.start == d then [x] else []) + OnDate(t, d)
  {
    var r := [x] + t;
    assert r[0] == x && r[1..] == t;
  }

  /** Inserting `e` into a sorted list puts it ahead of the events of its own day. */
  lemma {:induction false} OnDateInsert(e: Event, s: seq<Event>, d: CalendarDate)
    requires SortedByStart(s)
    ensures OnDate(Insert(e, s), d) == (if e.start == d then [e] else []) + OnDate(s, d)
  {
    if s == [] || DateLe(e.start, s[0].start) {
      OnDateCons(e, s, d);
    } else {
      var t := Insert(e, s[1..]);
      assert Insert(e, s) == [s[0]] + t;
      OnDateCons(s[0], t, d);
      assert s == [s[0]] + s[1..];
      OnDateCons(s[0], s[1..], d);
      SortedTail(s);
      OnDateInsert(e, s[1..], d);
      assert s[0].start != d || e.start != d;
      SwapEmpty(if s[0].start == d then [s[0]] else [], if e.start == d then [e] else [], OnDate(s[1..], d));
    }
  }

  /** Two pieces of which one is empty commute in front of a third. */
  lemma SwapEmpty(x: seq<Event>, y: seq<Event>, r: seq<Event>)
    requires x == [] || y == []
    ensures x + (y + r) == y + (x + r)
  {
    if x == [] {
      assert x + (y + r) == y + r == y + (x + r);
    } else {
      assert x + (y + r) == x + r == y + (x + r);
    }
  }

  /** Stability: the events of any one day keep their input order. */
  lemma {:induction false} SortStable(s: seq<Event>, d: CalendarDate)
    ensures OnDate(SortByStart(s), d) == OnDate(s, d)
  {
    if s != [] {
      SortStable(s[1..], d);
      SortSorted(s[1..]);
      OnDateInsert(s[0], SortByStart(s[1..]), d);
    }
  }
}
