/** The sensor entity: its state is the fewest days until any fraction's next pickup. */
module Sensor {
  import opened Wrappers
  import opened Dates
  import opened Schedule

  /** `v` is the least `days_until` that is set, and `None` when none is set. */
  ghost predicate IsMinDays(fractions: map<string, Fraction>, v: Option<int>)
  {
    && (v.None? <==> forall id :: id in fractions ==> fractions[id].daysUntil.None?)
    && (v.Some? ==> exists id :: id in fractions && fractions[id].daysUntil == v)
    && (v.Some? ==> forall id :: id in fractions && fractions[id].daysUntil.Some? ==> v.value <= fractions[id].daysUntil.value)
  }

  /** The minimum is unique. */
  lemma MinDaysUnique(fractions: map<string, Fraction>, v: Option<int>, w: Option<int>)
    requires IsMinDays(fractions, v) && IsMinDays(fractions, w)
    ensures v == w
  {
    if v.Some? {
      var a :| a in fractions && fractions[a].daysUntil == v;
      var b :| b in fractions && fractions[b].daysUntil == w;
    }
  }

  /** `native_value`: nothing without data or fractions, else the loop over the fractions. */
  method NativeValue(data: Option<Snapshot>) returns (v: Option<int>)
    ensures data.None? ==> v.None?
    ensures data.Some? ==> IsMinDays(data.value.fractions, v)
  {
    if data.None? || data.value.fractions == map[] {
      return None;
    }
    var fractions := data.value.fractions;
    var minDays: Option<int> := None;
    var todo := fractions.Keys;
    while todo != {}
      invariant todo <= fractions.Keys
      invariant IsMinDays(map id | id in fractions && id !in todo :: fractions[id], minDays)
      decreases todo
    {
      var id :| id in todo;
      ghost var seen := map k | k in fractions && k !in todo :: fractions[k];
      ghost var oldMin := minDays;
      var daysUntil := fractions[id].daysUntil;
      if daysUntil.Some? {
        if minDays.None? || daysUntil.value < minDays.value {
          minDays := daysUntil;
        }
      }
      todo := todo - {id};
      MinDaysStep(seen, id, fractions[id], oldMin);
      assert (map k | k in fractions && k !in todo :: fractions[k]) == seen[id := fractions[id]];
    }
    assert (map id | id in fractions && id !in todo :: fractions[id]) == fractions;
    v := minDays;
  }

  /** One more fraction updates the running minimum as the loop body does. */
  lemma MinDaysStep(seen: map<string, Fraction>, id: string, f: Fraction, oldMin: Option<int>)
    requires id !in seen && IsMinDays(seen, oldMin)
    ensures IsMinDays(seen[id := f], MinOf(oldMin, f.daysUntil))
  {
    var all := seen[id := f];
    var newMin := MinOf(oldMin, f.daysUntil);
    if newMin == oldMin && oldMin.Some? {
      var a :| a in seen && seen[a].daysUntil == oldMin;
      assert a in all && all[a] == seen[a];
    }
    assert id in all && all[id] == f;
    forall k | k in all && k != id
      ensures all[k] == seen[k]
    {
    }
    if newMin.Some? {
      forall k | k in all && all[k].daysUntil.Some?
        ensures newMin.value <= all[k].daysUntil.value
      {
        if k != id {
          assert all[k] == seen[k];
        }
      }
    }
  }

  /** The source's update: `days_until` replaces `min_days` when it is set and smaller. */
  function MinOf(minDays: Option<int>, daysUntil: Option<int>): Option<int>
  {
    if daysUntil.Some? && (minDays.None? || daysUntil.value < minDays.value) then daysUntil else minDays
  }

  /** After a refresh the state is never negative: no fraction's next pickup is in the past. */
  lemma RefreshedValueNonNegative(payload: seq<RawEntry>, today: CalendarDate, table: map<string, string>, v: Option<int>)
    requires payload != [] && IsMinDays(Normalize(payload, today, table).fractions, v)
    ensures v.Some? ==> v.value >= 0
  {
    if v.Some? {
      var snap := Normalize(payload, today, table);
      var id :| id in snap.fractions && snap.fractions[id].daysUntil == v;
      var next := SnapshotFractions(payload, id, today, table);
    }
  }
}
