/** The calendar screen's views: the ledger bucketed by day, the marking map
    handed to the calendar widget, and the list shown for the selected day. */
module Calendar {
  import opened Values
  import opened JsObject

  /** `s.slice(0, 10)` */
  function Slice10(s: string): string
  {
    if |s| <= 10 then s else s[..10]
  }

  /** The bucket of a record: the first ten characters of its date, or
      `today` (the current date in the reference time zone, supplied by the
      caller) when the date is missing or empty. */
  function DateKey(t: Tx, today: string): (k: string)
    // a stored `YYYY-MM-DD` date is its own key, whatever day it is now
    ensures t.date.Some? && 0 < |t.date.value| <= 10 ==> k == t.date.value
    // a longer timestamp is cut to its date part
    ensures t.date.Some? && |t.date.value| > 10 ==> k == t.date.value[..10] && |k| == 10
    ensures t.date.None? || t.date == Some("") ==> k == today
  {
    if t.date.Some? && t.date.value != "" then Slice10(t.date.value) else today
  }

  /** `map[d]` once `if (!map[d]) map[d] = []` has run. */
  function BucketSoFar(d: Dict<seq<Tx>>, k: string): seq<Tx>
  {
    if k in d.values then d.values[k] else []
  }

  /** The `forEach` that fills `byDate`, as a fold from the left. */
  function Buckets(ts: seq<Tx>, today: string): Dict<seq<Tx>>
  {
    if ts == [] then Empty()
    else
      var d := Buckets(ts[..|ts| - 1], today);
      var t := ts[|ts| - 1];
      Put(d, DateKey(t, today), BucketSoFar(d, DateKey(t, today)) + [t])
  }

  lemma {:induction false} BucketsWellFormed(ts: seq<Tx>, today: string)
    ensures WellFormed(Buckets(ts, today))
  {
    if ts != [] {
      var d := Buckets(ts[..|ts| - 1], today);
      var t := ts[|ts| - 1];
      BucketsWellFormed(ts[..|ts| - 1], today);
      PutWellFormed(d, DateKey(t, today), BucketSoFar(d, DateKey(t, today)) + [t]);
    }
  }

  /** Reference definition: the records of day `day`, in ledger order. */
  function OnDay(ts: seq<Tx>, day: string, today: string): seq<Tx>
  {
    if ts == [] then []
    else
      var t := ts[|ts| - 1];
      OnDay(ts[..|ts| - 1], day, today) + (if DateKey(t, today) == day then [t] else [])
  }

  /** A record is on day `day` exactly when its key is `day`. */
  lemma {:induction false} OnDayMembers(ts: seq<Tx>, day: string, today: string)
    ensures forall t :: t in OnDay(ts, day, today) <==> t in ts && DateKey(t, today) == day
  {
    if ts != [] {
      var init := ts[..|ts| - 1];
      assert ts == init + [ts[|ts| - 1]];
      OnDayMembers(init, day, today);
    }
  }

  /** The bucket of `day` exists exactly when some record falls on that day,
      and holds exactly that day's records in ledger order. */
  lemma {:induction false} BucketIsDay(ts: seq<Tx>, today: string, day: string)
    ensures day in Buckets(ts, today).values <==> OnDay(ts, day, today) != []
    ensures day in Buckets(ts, today).values ==> Buckets(ts, today).values[day] == OnDay(ts, day, today)
  {
    if ts != [] {
      BucketIsDay(ts[..|ts| - 1], today, day);
    }
  }

  function BucketSize(bucket: seq<Tx>): real
  {
    |bucket| as real
  }

  /** The bucket sizes add up to the number of records. */
  lemma {:induction false} BucketSizesSum(ts: seq<Tx>, today: string)
    ensures SumBy(Buckets(ts, today).keys, Buckets(ts, today).values, BucketSize) == |ts| as real
  {
    if ts != [] {
      var d := Buckets(ts[..|ts| - 1], today);
      var t := ts[|ts| - 1];
      var k := DateKey(t, today);
      BucketSizesSum(ts[..|ts| - 1], today);
      BucketsWellFormed(ts[..|ts| - 1], today);
      SumByPut(d, k, BucketSoFar(d, k) + [t], BucketSize);
      assert MeasureAt(d.values, k, BucketSize) == BucketSize(BucketSoFar(d, k));
    }
  }

  /** Each record of the ledger sits in exactly one bucket: the one of its own key. */
  lemma OneBucketPerRecord(ts: seq<Tx>, today: string, t: Tx, day: string)
    requires t in ts
    ensures day in Buckets(ts, today).values && t in Buckets(ts, today).values[day] <==> day == DateKey(t, today)
  {
    OnDayMembers(ts, day, today);
    BucketIsDay(ts, today, day);
  }

  /** A record dated `YYYY-MM-DD` is listed under that very day. */
  lemma DatedRecordBucket(ts: seq<Tx>, t: Tx, today: string)
    requires t in ts && t.date.Some? && |t.date.value| == 10
    ensures t.date.value in Buckets(ts, today).values
    ensures t in Buckets(ts, today).values[t.date.value]
  {
    OnDayMembers(ts, t.date.value, today);
    BucketIsDay(ts, today, t.date.value);
  }

  /** `if (!map[d]) map[d] = []` followed by `map[d].push(t)` amounts to one
      assignment of the extended bucket. */
  lemma CreateThenPush(byDate: Dict<seq<Tx>>, d: string, t: Tx)
    requires WellFormed(byDate)
    ensures var ready := if d !in byDate.values then Put(byDate, d, []) else byDate;
            d in ready.values && Put(ready, d, ready.values[d] + [t]) == Put(byDate, d, BucketSoFar(byDate, d) + [t])
  {
    if d !in byDate.values {
      assert d !in byDate.keys;
      assert [] + [t] == [t];
    }
  }

  /** What the bucketing guarantees about every day and every record. */
  lemma BucketsComplete(ts: seq<Tx>, today: string)
    ensures WellFormed(Buckets(ts, today))
    ensures forall day :: day in Buckets(ts, today).values ==>
      Buckets(ts, today).values[day] == OnDay(ts, day, today) && Buckets(ts, today).values[day] != []
    ensures forall t :: t in ts ==> DateKey(t, today) in Buckets(ts, today).values
  {
    BucketsWellFormed(ts, today);
    forall day | day in Buckets(ts, today).values
      ensures Buckets(ts, today).values[day] == OnDay(ts, day, today) && Buckets(ts, today).values[day] != []
    {
      BucketIsDay(ts, today, day);
    }
    forall t | t in ts
      ensures DateKey(t, today) in Buckets(ts, today).values
    {
      OnDayMembers(ts, DateKey(t, today), today);
      BucketIsDay(ts, today, DateKey(t, today));
    }
  }

  /** The `byDate` memo. */
  method ComputeByDate(ts: seq<Tx>, today: string) returns (byDate: Dict<seq<Tx>>)
    ensures byDate == Buckets(ts, today)
    ensures WellFormed(byDate)
    // every record is in the bucket of its own day, and only there
    ensures forall day :: day in byDate.values ==> byDate.values[day] == OnDay(ts, day, today)
    ensures forall t :: t in ts ==> DateKey(t, today) in byDate.values
    // no bucket is empty
    ensures forall day :: day in byDate.values ==> byDate.values[day] != []
  {
    byDate := Empty();
    var i := 0;
    while i < |ts|
      invariant 0 <= i <= |ts|
      invariant byDate == Buckets(ts[..i], today)
    {
      var t := ts[i];
      var d := DateKey(t, today);
      BucketsWellFormed(ts[..i], today);
      CreateThenPush(byDate, d, t);
      assert ts[..i + 1][..i] == ts[..i] && ts[..i + 1][i] == t;
      if d !in byDate.values {
        byDate := Put(byDate, d, []);
      }
      byDate := Put(byDate, d, byDate.values[d] + [t]);
      i := i + 1;
    }
    assert ts[..i] == ts;
    BucketsComplete(ts, today);
  }

  /** The marking of one day for the calendar widget; a key the source leaves
      out is `false` or None here. */
  datatype Marking = Marking(marked: bool, dotColor: Option<string>, selected: bool, selectedColor: Option<string>)

  const DotColor: string := "#FF6F61"

  /** `{ marked: true, dotColor: "#FF6F61" }` */
  const DayMark: Marking := Marking(true, Some(DotColor), false, None)

  /** `if (selected)`: no day is selected while `selected` is null or empty. */
  predicate IsSelected(selected: Option<string>)
  {
    selected.Some? && selected.value != ""
  }

  /** The `marked` memo: every day with a bucket gets a dot, and the selected
      day, if any, is flagged on top of whatever marking it has. */
  method ComputeMarked(byDate: Dict<seq<Tx>>, selected: Option<string>, selectedColor: string)
    returns (m: map<string, Marking>)
    ensures forall d :: d in m <==> d in byDate.keys || (IsSelected(selected) && d == selected.value)
    ensures forall d :: d in byDate.keys && !(IsSelected(selected) && d == selected.value) ==> m[d] == DayMark
    ensures IsSelected(selected) ==>
      && m[selected.value].selected
      && m[selected.value].selectedColor == Some(selectedColor)
      && m[selected.value].marked == (selected.value in byDate.keys)
      && m[selected.value].dotColor == (if selected.value in byDate.keys then Some(DotColor) else None)
  {
    m := map[];
    var i := 0;
    while i < |byDate.keys|
      invariant 0 <= i <= |byDate.keys|
      invariant forall d :: d in m <==> d in byDate.keys[..i]
      invariant forall d :: d in m ==> m[d] == DayMark
    {
      assert byDate.keys[..i + 1] == byDate.keys[..i] + [byDate.keys[i]];
      m := m[byDate.keys[i] := DayMark];
      i := i + 1;
    }
    assert byDate.keys[..i] == byDate.keys;
    if IsSelected(selected) {
      var s := selected.value;
      var base := if s in m then m[s] else Marking(false, None, false, None);
      m := m[s := base.(selected := true, selectedColor := Some(selectedColor))];
    }
  }

  /** `selected ? byDate[selected] || [] : []` */
  function ListForSelected(byDate: Dict<seq<Tx>>, selected: Option<string>): seq<Tx>
  {
    if IsSelected(selected) && selected.value in byDate.values then byDate.values[selected.value] else []
  }

  /** The list under the calendar is empty while no day is selected, and is
      otherwise exactly the selected day's records, in ledger order (empty
      when the day has none). */
  lemma SelectedDayList(ts: seq<Tx>, today: string, selected: Option<string>)
    ensures !IsSelected(selected) ==> ListForSelected(Buckets(ts, today), selected) == []
    ensures IsSelected(selected) ==>
      ListForSelected(Buckets(ts, today), selected) == OnDay(ts, selected.value, today)
  {
    if IsSelected(selected) {
      BucketIsDay(ts, today, selected.value);
    }
  }

  /** Every day that has records carries a dot in the marking map. */
  lemma MarkedCoversBuckets(ts: seq<Tx>, today: string, day: string)
    ensures OnDay(ts, day, today) != [] <==> day in Buckets(ts, today).keys
  {
    BucketIsDay(ts, today, day);
    BucketsWellFormed(ts, today);
  }
}
