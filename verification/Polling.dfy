/** The demo's poll loop: fetch until every event is normalized or the deadline has passed. */
module Polling {
  import opened Sequences
  import opened Wrappers

  const INTERVAL: real := 0.5

  /** A `normalized_attributes` cell: SQL null, JSON text, or a value the driver has decoded. */
  datatype Cell<A> = Null | Text(json: string) | Decoded(value: A)

  datatype Row<A> = Row(id: string, protocol: string, cell: Cell<A>)

  /** What is kept of a row; attributes are absent if they are the JSON null. */
  datatype Entry<A> = Entry(id: string, protocol: string, attributes: Option<A>)

  datatype Outcome<A> = Found(results: seq<Entry<A>>) | TimedOut(missing: seq<string>) | FetchRaised | DecodeRaised

  /** `json.loads`: nothing if it raises, `Some(None)` for the JSON null. */
  type Loads<A> = string -> Option<Option<A>>

  // ---- one fetch ----------------------------------------------------------------------------------

  predicate Usable<A>(row: Row<A>) {
    !row.cell.Null?
  }

  predicate Decodes<A>(row: Row<A>, loads: Loads<A>) {
    row.cell.Text? ==> loads(row.cell.json).Some?
  }

  /** A result tells the id and the protocol of its row, and its attributes as the driver decoded them, or read
      from the text. */
  ghost predicate TellsRow<A>(e: Entry<A>, row: Row<A>, loads: Loads<A>) {
    && e.id == row.id && e.protocol == row.protocol
    && (row.cell.Decoded? ==> e.attributes == Some(row.cell.value))
    && (row.cell.Text? ==> loads(row.cell.json) == Some(e.attributes))
    && !row.cell.Null?
  }

  function EntryOf<A>(row: Row<A>, loads: Loads<A>): (e: Entry<A>)
    requires Usable(row) && Decodes(row, loads)
    ensures TellsRow(e, row, loads)
  {
    match row.cell
    case Text(json) => Entry(row.id, row.protocol, loads(json).value)
    case Decoded(value) => Entry(row.id, row.protocol, Some(value))
  }

  /** The id-to-row map of one fetch, or nothing if a cell does not decode. */
  function RowMap<A>(rows: seq<Row<A>>, loads: Loads<A>): Option<map<string, Entry<A>>> {
    if rows == [] then Some(map[])
    else
      var before, last := RowMap(rows[..|rows| - 1], loads), rows[|rows| - 1];
      if before.None? || !Usable(last) then before
      else if !Decodes(last, loads) then None
      else Some(before.value[last.id := EntryOf(last, loads)])
  }

  /** Row `k` is the last one of `id` that is not null. */
  ghost predicate IsLast<A>(rows: seq<Row<A>>, id: string, k: nat) {
    && k < |rows| && rows[k].id == id && Usable(rows[k])
    && forall j :: k < j < |rows| && rows[j].id == id ==> !Usable(rows[j])
  }

  ghost predicate Normalized<A>(rows: seq<Row<A>>, id: string) {
    exists k :: 0 <= k < |rows| && rows[k].id == id && Usable(rows[k])
  }

  /** The map fails exactly when some row that is not null does not decode. */
  lemma {:induction false} RowMapFailsIff<A>(rows: seq<Row<A>>, loads: Loads<A>)
    ensures RowMap(rows, loads).Some? <==> forall row :: row in rows && Usable(row) ==> Decodes(row, loads)
  {
    if rows != [] {
      assert rows == rows[..|rows| - 1] + [rows[|rows| - 1]];
      RowMapFailsIff(rows[..|rows| - 1], loads);
    }
  }

  /** Otherwise every id is given its last row that is not null. */
  lemma {:induction false} RowMapIsLast<A>(rows: seq<Row<A>>, loads: Loads<A>, id: string)
    requires RowMap(rows, loads).Some?
    ensures id in RowMap(rows, loads).value <==> Normalized(rows, id)
    ensures id in RowMap(rows, loads).value ==>
      exists k: nat :: IsLast(rows, id, k) && TellsRow(RowMap(rows, loads).value[id], rows[k], loads)
  {
    if rows != [] {
      var init, n := rows[..|rows| - 1], |rows| - 1;
      RowMapIsLast(init, loads, id);
      if rows[n].id == id && Usable(rows[n]) {
        assert IsLast(rows, id, n);
      } else if id in RowMap(init, loads).value {
        var k: nat :| IsLast(init, id, k) && TellsRow(RowMap(init, loads).value[id], init[k], loads);
        assert IsLast(rows, id, k);
      }
    }
  }

  /** The loop over the rows of one fetch. */
  method BuildRowMap<A>(rows: seq<Row<A>>, loads: Loads<A>) returns (r: Option<map<string, Entry<A>>>)
    ensures r == RowMap(rows, loads)
  {
    var rowMap: map<string, Entry<A>> := map[];
    for i := 0 to |rows|
      invariant RowMap(rows[..i], loads) == Some(rowMap)
    {
      assert rows[..i + 1][..i] == rows[..i];
      if Usable(rows[i]) {
        if !Decodes(rows[i], loads) {
          RowMapFailsIff(rows, loads);
          return None;
        }
        rowMap := rowMap[rows[i].id := EntryOf(rows[i], loads)];
      }
    }
    assert rows[..|rows|] == rows;
    r := Some(rowMap);
  }

  // ---- the loop -----------------------------------------------------------------------------------

  ghost predicate Complete<A>(rows: seq<Row<A>>, ids: seq<string>) {
    forall id :: id in ids ==> Normalized(rows, id)
  }

  /** Result `i` is the last row of id `i` that is not null. */
  ghost predicate Answers<A>(results: seq<Entry<A>>, rows: seq<Row<A>>, ids: seq<string>, loads: Loads<A>) {
    && |results| == |ids|
    && forall i :: 0 <= i < |ids| ==>
         && results[i].id == ids[i]
         && exists k: nat :: IsLast(rows, ids[i], k) && TellsRow(results[i], rows[k], loads)
  }

  /** The ids that are still to be normalized, in the order and as often as they were asked for. */
  ghost function Missing<A>(rows: seq<Row<A>>, ids: seq<string>): seq<string> {
    if ids == [] then []
    else
      var last := ids[|ids| - 1];
      Missing(rows, ids[..|ids| - 1]) + if Normalized(rows, last) then [] else [last]
  }

  lemma {:induction false} MissingIsFiltered<A>(rows: seq<Row<A>>, ids: seq<string>, still: string -> Option<string>)
    requires forall id: string :: still(id) == if Normalized(rows, id) then None else Some(id)
    ensures FilterMap(still, ids) == Missing(rows, ids)
    decreases |ids|
  {
    if ids != [] {
      MissingIsFiltered(rows, ids[..|ids| - 1], still);
    }
  }

  /** Every id that is still to be normalized is among the missing, once for every time it was asked for and in its
      place, and nothing else is. */
  lemma MissingInPlace<A>(rows: seq<Row<A>>, ids: seq<string>, still: string -> Option<string>) returns (from: seq<nat>)
    requires forall id: string :: still(id) == if Normalized(rows, id) then None else Some(id)
    ensures Selected(still, ids, Missing(rows, ids), from)
  {
    MissingIsFiltered(rows, ids, still);
    from := SelectionExists(still, ids);
  }

  /** `[eid for eid in event_ids if eid not in row_map]`. */
  function Without(ids: seq<string>, present: set<string>): seq<string> {
    FilterMap(id => if id in present then None else Some(id), ids)
  }

  lemma WithoutIsMissing<A>(rows: seq<Row<A>>, ids: seq<string>, present: set<string>)
    requires forall id: string :: id in present <==> Normalized(rows, id)
    ensures Without(ids, present) == Missing(rows, ids)
  {
    MissingIsFiltered(rows, ids, id => if id in present then None else Some(id));
  }

  /** A fetch after which the loop goes on, time permitting: it was fine but not complete. */
  ghost predicate WentOn<A>(fetched: Option<seq<Row<A>>>, ids: seq<string>, loads: Loads<A>) {
    fetched.Some? && RowMap(fetched.value, loads).Some? && !Complete(fetched.value, ids)
  }

  /** Fetch number `k` was such a fetch, and the deadline had not passed. */
  ghost predicate WaitedAfter<A>(fetch: nat -> Option<seq<Row<A>>>, clock: nat -> real, k: nat, timeout: real,
                                 ids: seq<string>, loads: Loads<A>) {
    WentOn(fetch(k), ids, loads) && clock(k + 1) < clock(0) + timeout
  }

  /** A sleep advances the clock by the interval at least. */
  predicate Ticks(clock: nat -> real, k: nat) {
    clock(k) + INTERVAL <= clock(k + 1)
  }

  /** Between the first reading and the one after fetch number `done` lie `done - 1` sleeps. */
  predicate HasSlept(clock: nat -> real, done: nat) {
    clock(0) + INTERVAL * (done as real - 1.0) <= clock(done)
  }

  lemma SleepsAddUp(clock: nat -> real, done: nat)
    requires done > 0 && HasSlept(clock, done) && Ticks(clock, done)
    ensures HasSlept(clock, done + 1)
  {
  }

  function Ceiling(x: real): int {
    -((-x).Floor)
  }

  function MaxFetches(timeout: real): nat {
    (if timeout <= 0.0 then 0 else Ceiling(timeout / INTERVAL)) + 1
  }

  lemma OneMoreFits(clock: nat -> real, done: nat, timeout: real)
    requires done > 0 && HasSlept(clock, done) && clock(done) < clock(0) + timeout
    ensures done < MaxFetches(timeout) && 0.5 * (done as real - 1.0) < timeout
  {
    assert timeout > 0.0;
    assert done as real - 1.0 < timeout / INTERVAL;
  }

  /** What one fetch comes to, if there is no time for another. */
  method ReadFetch<A>(rows: seq<Row<A>>, ids: seq<string>, loads: Loads<A>) returns (r: Outcome<A>)
    ensures !r.FetchRaised?
    ensures r.DecodeRaised? <==> RowMap(rows, loads).None?
    ensures r.Found? ==> Answers(r.results, rows, ids, loads)
    ensures r.TimedOut? ==> WentOn(Some(rows), ids, loads) && r.missing == Missing(rows, ids)
  {
    var rowMap := BuildRowMap(rows, loads);
    if rowMap.None? {
      return DecodeRaised;
    }
    MapTellsNormalized(rows, loads);
    if forall id :: id in ids ==> id in rowMap.value {
      var results := seq(|ids|, i requires 0 <= i < |ids| => rowMap.value[ids[i]]);
      ResultsAnswer(results, rows, ids, loads);
      return Found(results);
    }
    assert !Complete(rows, ids);
    WithoutIsMissing(rows, ids, rowMap.value.Keys);
    r := TimedOut(Without(ids, rowMap.value.Keys));
  }

  /** `_poll_loop`.  `fetch(k)` is what fetch number `k` returns, unless it raises; `clock(0)` is the
      reading that sets the deadline and `clock(k + 1)` the one after fetch number `k`. */
  method PollLoop<A>(ids: seq<string>, timeout: real, fetch: nat -> Option<seq<Row<A>>>, clock: nat -> real,
                     loads: Loads<A>)
    returns (r: Outcome<A>, fetches: nat)
    requires clock(0) <= clock(1) && forall k: nat :: k > 0 ==> Ticks(clock, k)
    ensures 0 < fetches <= MaxFetches(timeout)
    ensures fetches == 1 || 0.5 * (fetches as real - 2.0) < timeout
    ensures forall k: nat :: k < fetches - 1 ==> WaitedAfter(fetch, clock, k, timeout, ids, loads)
    ensures r.FetchRaised? <==> fetch(fetches - 1).None?
    ensures r.DecodeRaised? <==> fetch(fetches - 1).Some? && RowMap(fetch(fetches - 1).value, loads).None?
    ensures r.Found? ==> fetch(fetches - 1).Some? && Answers(r.results, fetch(fetches - 1).value, ids, loads)
    ensures r.TimedOut? ==>
      && WentOn(fetch(fetches - 1), ids, loads) && clock(fetches) >= clock(0) + timeout
      && r.missing == Missing(fetch(fetches - 1).value, ids)
  {
    var deadline := clock(0) + timeout;
    fetches := 0;
    while true
      invariant forall k: nat :: k < fetches ==> WaitedAfter(fetch, clock, k, timeout, ids, loads)
      invariant fetches == 0 || HasSlept(clock, fetches)
      invariant fetches < MaxFetches(timeout) && (fetches == 0 || 0.5 * (fetches as real - 1.0) < timeout)
      decreases MaxFetches(timeout) - fetches
    {
      var fetched := fetch(fetches);
      fetches := fetches + 1;
      if fetched.None? {
        return FetchRaised, fetches;
      }
      r := ReadFetch(fetched.value, ids, loads);
      if !r.TimedOut? || clock(fetches) >= deadline {
        return r, fetches;
      }
      assert WaitedAfter(fetch, clock, fetches - 1, timeout, ids, loads);
      if fetches > 1 {
        assert Ticks(clock, fetches - 1);
        SleepsAddUp(clock, fetches - 1);
      }
      OneMoreFits(clock, fetches, timeout);
    }
  }

  lemma MapTellsNormalized<A>(rows: seq<Row<A>>, loads: Loads<A>)
    requires RowMap(rows, loads).Some?
    ensures forall id: string :: id in RowMap(rows, loads).value <==> Normalized(rows, id)
  {
    forall id: string ensures id in RowMap(rows, loads).value <==> Normalized(rows, id) {
      RowMapIsLast(rows, loads, id);
    }
  }

  lemma ResultsAnswer<A>(results: seq<Entry<A>>, rows: seq<Row<A>>, ids: seq<string>, loads: Loads<A>)
    requires RowMap(rows, loads).Some? && |results| == |ids|
    requires forall i :: 0 <= i < |ids| ==>
      ids[i] in RowMap(rows, loads).value && results[i] == RowMap(rows, loads).value[ids[i]]
    ensures Answers(results, rows, ids, loads)
  {
    forall i | 0 <= i < |ids|
      ensures results[i].id == ids[i]
      ensures exists k: nat :: IsLast(rows, ids[i], k) && TellsRow(results[i], rows[k], loads)
    {
      RowMapIsLast(rows, loads, ids[i]);
    }
  }

  // ---- the attributes returned --------------------------------------------------------------------

  /** The last row of `id` that is not null holds the text of the JSON null. */
  ghost predicate EndsInJsonNull<A>(rows: seq<Row<A>>, id: string, loads: Loads<A>) {
    exists k: nat :: IsLast(rows, id, k) && rows[k].cell.Text? && loads(rows[k].cell.json) == Some(None)
  }

  /** A result without attributes comes of the text of the JSON null, which is not an SQL null, and of
      nothing else: that is when the loop returns before the event is normalized. */
  lemma AttributesArePresentIff<A>(results: seq<Entry<A>>, rows: seq<Row<A>>, ids: seq<string>, loads: Loads<A>)
    requires Answers(results, rows, ids, loads)
    ensures (forall i :: 0 <= i < |results| ==> results[i].attributes.Some?)
       <==> (forall id :: id in ids ==> !EndsInJsonNull(rows, id, loads))
  {
    forall i | 0 <= i < |ids| ensures results[i].attributes.None? <==> EndsInJsonNull(rows, ids[i], loads) {
      var k: nat :| IsLast(rows, ids[i], k) && TellsRow(results[i], rows[k], loads);
      forall l: nat | IsLast(rows, ids[i], l) ensures l == k {
      }
    }
  }

  /** A fetch that shows it: the one row holds the text of the JSON null.  It counts as normalized, and the
      loop returns a result without attributes. */
  lemma NullTextIsReturned<A>(id: string, protocol: string, loads: Loads<A>)
    requires loads("null") == Some(None)
    ensures var rows := [Row(id, protocol, Text("null"))];
      && Complete(rows, [id]) && EndsInJsonNull(rows, id, loads)
      && Answers([Entry(id, protocol, None)], rows, [id], loads)
      && forall results :: Answers(results, rows, [id], loads) ==> results == [Entry(id, protocol, None)]
  {
    var rows := [Row(id, protocol, Text("null"))];
    assert IsLast(rows, id, 0) && TellsRow(Entry(id, protocol, None), rows[0], loads);
    assert Normalized(rows, id);
    forall results | Answers(results, rows, [id], loads) ensures results == [Entry(id, protocol, None)] {
      var k: nat :| IsLast(rows, [id][0], k) && TellsRow(results[0], rows[k], loads);
    }
  }

  /** The same rows in any order give the same results, when no id comes twice. */
  lemma OrderDoesNotMatter<A>(a: seq<Row<A>>, b: seq<Row<A>>, loads: Loads<A>)
    requires RowMap(a, loads).Some? && forall row :: row in a <==> row in b
    requires forall i, j :: 0 <= i < j < |a| ==> a[i].id != a[j].id
    ensures RowMap(b, loads) == RowMap(a, loads)
  {
    RowMapFailsIff(a, loads);
    RowMapFailsIff(b, loads);
    var m, n := RowMap(a, loads).value, RowMap(b, loads).value;
    forall id: string ensures id in m <==> id in n {
      RowMapIsLast(a, loads, id);
      RowMapIsLast(b, loads, id);
      SameNormalized(a, b, id);
    }
    forall id | id in m ensures m[id] == n[id] {
      RowMapIsLast(a, loads, id);
      RowMapIsLast(b, loads, id);
      var k: nat :| IsLast(a, id, k) && TellsRow(m[id], a[k], loads);
      var l: nat :| IsLast(b, id, l) && TellsRow(n[id], b[l], loads);
      assert b[l] in a && b[l].id == a[k].id;
    }
    assert m == n;
  }

  lemma SameNormalized<A>(a: seq<Row<A>>, b: seq<Row<A>>, id: string)
    requires forall row :: row in a <==> row in b
    ensures Normalized(a, id) <==> Normalized(b, id)
  {
    if Normalized(a, id) {
      var k :| 0 <= k < |a| && a[k].id == id && Usable(a[k]);
      assert a[k] in b;
    }
    if Normalized(b, id) {
      var k :| 0 <= k < |b| && b[k].id == id && Usable(b[k]);
      assert b[k] in a;
    }
  }
}
