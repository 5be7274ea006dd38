/**
 * The seats of one schedule: copying a layout, adding extra seats, and the
 * lifecycle that freezes the seat count. The gateway's fixed arrays rely on
 * the indices being exactly 1..n from the moment booking opens.
 */
module ScheduleSeats {
  import opened Wrappers
  import SeatRegistry

  datatype Lifecycle = Scheduled | Open | Closed

  /** `key` stands for (row letter, seat number); ids come from a serial column. */
  datatype Row = Row(id: int, key: (string, int), index: int)

  datatype Schedule = Schedule(rows: seq<Row>, lifecycle: Lifecycle, deleted: bool, nextId: int)

  /** A requested extra seat; no price means one that does not parse. */
  datatype SeatRequest = SeatRequest(key: (string, int), price: Option<int>)

  datatype Error = Empty | NotFound | AlreadyStarted | InvalidPrice | TooManySeats | ClosedForGood

  const I32_MAX := 0x7fff_ffff

  // ----------------------------------------------------------- specification

  function KeysOf(rows: seq<Row>): set<(string, int)> {
    set r | r in rows :: r.key
  }

  /** The keys of a layout, in order, each once. */
  function Distinct(layout: seq<(string, int)>): seq<(string, int)> {
    if layout == [] then []
    else
      var n := |layout| - 1;
      var seen := Distinct(layout[..n]);
      if layout[n] in seen then seen else seen + [layout[n]]
  }

  /** The rows `create_schedule` proposes: one-based positions in the copied layout. */
  function BaseRows(keys: seq<(string, int)>, nextId: int): seq<Row> {
    seq(|keys|, i requires 0 <= i < |keys| => Row(nextId + i, keys[i], i + 1))
  }

  /** Unique indexes on (schedule, row, number) and (schedule, seat index). */
  predicate Conflicts(rows: seq<Row>, r: Row) {
    exists k :: 0 <= k < |rows| && (rows[k].key == r.key || rows[k].index == r.index)
  }

  /** INSERT ... ON CONFLICT DO NOTHING */
  function InsertAll(rows: seq<Row>, news: seq<Row>): seq<Row> {
    if news == [] then rows
    else
      var n := |news| - 1;
      var before := InsertAll(rows, news[..n]);
      if Conflicts(before, news[n]) then before else before + [news[n]]
  }

  function MaxIndex(rows: seq<Row>): (m: int)
    ensures m >= 0
  {
    if rows == [] then 0
    else
      var m := MaxIndex(rows[..|rows| - 1]);
      if rows[|rows| - 1].index > m then rows[|rows| - 1].index else m
  }

  /** One requested seat: a key not seen before takes the next index. */
  function AddOne(rows: seq<Row>, nextId: int, news: seq<Row>, seat: SeatRequest): Result<seq<Row>, Error> {
    var next := MaxIndex(rows) + 1 + |news|;
    if seat.key in KeysOf(rows) || seat.key in KeysOf(news) then Ok(news)
    else if seat.price.None? then Err(InvalidPrice)
    else if next >= I32_MAX then Err(TooManySeats)
    else Ok(news + [Row(nextId + |news|, seat.key, next)])
  }

  /** The rows an accepted request adds: each new key once, numbered on from the highest index. */
  function Extras(rows: seq<Row>, nextId: int, seats: seq<SeatRequest>): Result<seq<Row>, Error> {
    if seats == [] then
      if MaxIndex(rows) >= I32_MAX then Err(TooManySeats) else Ok([])
    else
      var before := Extras(rows, nextId, seats[..|seats| - 1]);
      if before.Err? then before else AddOne(rows, nextId, before.value, seats[|seats| - 1])
  }

  datatype Event =
    | CopyLayout(layout: seq<(string, int)>)
    | AddExtra(seats: seq<SeatRequest>)
    | Start
    | Close
    | Delete

  function Step(s: Schedule, ev: Event): Schedule {
    match ev
    case CopyLayout(layout) =>
      var keys := Distinct(layout);
      s.(rows := InsertAll(s.rows, BaseRows(keys, s.nextId)), nextId := s.nextId + |keys|)
    case AddExtra(seats) =>
      if seats == [] || s.deleted || s.lifecycle != Scheduled then s
      else
        var r := Extras(s.rows, s.nextId, seats);
        if r.Err? then s else s.(rows := s.rows + r.value, nextId := s.nextId + |r.value|)
    case Start => if s.deleted || s.lifecycle == Closed then s else s.(lifecycle := Open)
    case Close => if s.deleted then s else s.(lifecycle := Closed)
    case Delete => if s.deleted then s else s.(lifecycle := Closed, deleted := true)
  }

  function Exec(s: Schedule, run: seq<Event>): Schedule {
    if run == [] then s else Step(Exec(s, run[..|run| - 1]), run[|run| - 1])
  }

  const NEW := Schedule([], Scheduled, false, 1)

  /** What `create_schedule` leaves when nothing comes between its two statements. */
  function Created(layout: seq<(string, int)>): Schedule {
    Step(NEW, CopyLayout(layout))
  }

  // --------------------------------------------------------------- invariants

  /** Indices are 1..n in order, keys and ids are distinct. */
  ghost predicate WellNumbered(s: Schedule) {
    && s.nextId >= 1
    && (forall k :: 0 <= k < |s.rows| ==> s.rows[k].index == k + 1 && 1 <= s.rows[k].id < s.nextId)
    && (forall j, k :: 0 <= j < k < |s.rows| ==> s.rows[j].key != s.rows[k].key && s.rows[j].id != s.rows[k].id)
  }

  lemma {:induction false} DistinctIs(layout: seq<(string, int)>)
    ensures forall i, j :: 0 <= i < j < |Distinct(layout)| ==> Distinct(layout)[i] != Distinct(layout)[j]
    ensures forall key :: key in Distinct(layout) <==> key in layout
  {
    if layout != [] {
      DistinctIs(layout[..|layout| - 1]);
      assert forall key :: key in layout <==> key in layout[..|layout| - 1] || key == layout[|layout| - 1];
    }
  }

  lemma InsertLast(rows: seq<Row>, news: seq<Row>, inserted: seq<Row>)
    requires news != [] && InsertAll(rows, news[..|news| - 1]) == inserted
    ensures var r := news[|news| - 1];
            InsertAll(rows, news) == if Conflicts(inserted, r) then inserted else inserted + [r]
  {
  }

  ghost predicate Apart(rows: seq<Row>) {
    forall i, j :: 0 <= i < j < |rows| ==> rows[i].key != rows[j].key && rows[i].index != rows[j].index
  }

  lemma ApartLast(rows: seq<Row>, n: nat)
    requires Apart(rows) && |rows| == n + 1
    ensures Apart(rows[..n]) && !Conflicts(rows[..n], rows[n])
  {
  }

  /** Rows that differ from each other in key and index all go into an empty table. */
  lemma {:induction false} InsertIntoEmpty(news: seq<Row>)
    requires Apart(news)
    ensures InsertAll([], news) == news
  {
    if news != [] {
      var n := |news| - 1;
      var before := news[..n];
      ApartLast(news, n);
      InsertIntoEmpty(before);
      InsertLast([], news, before);
      assert before + [news[n]] == news;
    }
  }

  /** A layout is copied whole, each key once and numbered 1..n. */
  lemma CreatedWellNumbered(layout: seq<(string, int)>)
    ensures WellNumbered(Created(layout))
    ensures KeysOf(Created(layout).rows) == set key | key in layout
  {
    var keys := Distinct(layout);
    DistinctIs(layout);
    var rows := BaseRows(keys, 1);
    InsertIntoEmpty(rows);
    forall key
      ensures key in KeysOf(rows) <==> key in layout
    {
      if key in layout {
        var i :| 0 <= i < |keys| && keys[i] == key;
        assert rows[i] in rows && rows[i].key == key;
      }
      if key in KeysOf(rows) {
        var r :| r in rows && r.key == key;
        assert r.key in keys;
      }
    }
  }

  lemma {:induction false} MaxIsCount(s: Schedule, n: nat)
    requires WellNumbered(s) && n <= |s.rows|
    ensures MaxIndex(s.rows[..n]) == n
  {
    if n > 0 {
      MaxIsCount(s, n - 1);
      assert s.rows[..n][..n - 1] == s.rows[..n - 1];
    }
  }

  lemma AppendRow(s: Schedule, rows: seq<Row>, nextId: int, row: Row)
    requires WellNumbered(s.(rows := rows, nextId := nextId))
    requires row.index == |rows| + 1 && row.id == nextId && row.key !in KeysOf(rows)
    ensures WellNumbered(s.(rows := rows + [row], nextId := nextId + 1))
  {
    forall j | 0 <= j < |rows|
      ensures rows[j].key != row.key
    {
      assert rows[j] in rows;
    }
  }

  lemma KeysOfConcat(a: seq<Row>, b: seq<Row>)
    ensures KeysOf(a + b) == KeysOf(a) + KeysOf(b)
  {
    forall key
      ensures key in KeysOf(a + b) <==> key in KeysOf(a) || key in KeysOf(b)
    {
      assert forall r :: r in a + b <==> r in a || r in b;
    }
  }

  function WithRows(s: Schedule, news: seq<Row>): Schedule {
    s.(rows := s.rows + news, nextId := s.nextId + |news|)
  }

  lemma {:induction false} ExtrasWellNumbered(s: Schedule, seats: seq<SeatRequest>)
    requires WellNumbered(s) && MaxIndex(s.rows) == |s.rows| && Extras(s.rows, s.nextId, seats).Ok?
    ensures WellNumbered(WithRows(s, Extras(s.rows, s.nextId, seats).value))
    ensures KeysOf(s.rows + Extras(s.rows, s.nextId, seats).value) == KeysOf(s.rows) + RequestedKeys(seats)
  {
    if seats == [] {
      assert WithRows(s, []) == s;
    } else {
      var n := |seats| - 1;
      ExtrasWellNumbered(s, seats[..n]);
      AddOneWellNumbered(s, Extras(s.rows, s.nextId, seats[..n]).value, seats[n]);
      AddOneKeys(s, Extras(s.rows, s.nextId, seats[..n]).value, seats[n]);
      RequestedOneMore(seats, n);
    }
  }

  function RequestedKeys(seats: seq<SeatRequest>): set<(string, int)> {
    set seat | seat in seats :: seat.key
  }

  lemma RequestedOneMore(seats: seq<SeatRequest>, n: nat)
    requires |seats| == n + 1
    ensures RequestedKeys(seats) == RequestedKeys(seats[..n]) + {seats[n].key}
  {
    assert forall seat :: seat in seats <==> seat in seats[..n] || seat == seats[n];
  }

  lemma AddOneKeys(s: Schedule, news: seq<Row>, seat: SeatRequest)
    requires AddOne(s.rows, s.nextId, news, seat).Ok?
    ensures KeysOf(s.rows + AddOne(s.rows, s.nextId, news, seat).value) == KeysOf(s.rows + news) + {seat.key}
  {
    var after := AddOne(s.rows, s.nextId, news, seat).value;
    KeysOfConcat(s.rows, news);
    KeysOfConcat(s.rows, after);
    if after != news {
      KeysOfConcat(news, [after[|news|]]);
    }
  }

  /** The seat's key is on the schedule, or asked for earlier in the request. */
  predicate KnownKey(rows: seq<Row>, seats: seq<SeatRequest>, k: nat)
    requires k < |seats|
  {
    seats[k].key in KeysOf(rows) || seats[k].key in RequestedKeys(seats[..k])
  }

  ghost predicate NewSeatsPriced(rows: seq<Row>, seats: seq<SeatRequest>) {
    forall k :: 0 <= k < |seats| ==> seats[k].price.Some? || KnownKey(rows, seats, k)
  }

  /** While the indices last, a request is accepted exactly when every seat that would be new has a
      valid price; the price of a repeated or existing seat is not looked at. */
  lemma {:induction false} AcceptedIffPriced(s: Schedule, seats: seq<SeatRequest>)
    requires WellNumbered(s) && |s.rows| + |seats| < 2147483647
    ensures Extras(s.rows, s.nextId, seats).Ok? <==> NewSeatsPriced(s.rows, seats)
    ensures Extras(s.rows, s.nextId, seats).Ok? ==> |Extras(s.rows, s.nextId, seats).value| <= |seats|
  {
    MaxIsCount(s, |s.rows|);
    assert s.rows[..|s.rows|] == s.rows;
    if seats != [] {
      var n := |seats| - 1;
      AcceptedIffPriced(s, seats[..n]);
      PricedOneMore(s.rows, seats, n);
      if Extras(s.rows, s.nextId, seats[..n]).Ok? {
        ExtrasWellNumbered(s, seats[..n]);
        KeysOfConcat(s.rows, Extras(s.rows, s.nextId, seats[..n]).value);
      }
    }
  }

  lemma PricedOneMore(rows: seq<Row>, seats: seq<SeatRequest>, n: nat)
    requires |seats| == n + 1
    ensures NewSeatsPriced(rows, seats) <==> NewSeatsPriced(rows, seats[..n]) && (seats[n].price.Some? || KnownKey(rows, seats, n))
  {
    assert forall k :: 0 <= k < n ==> seats[..n][..k] == seats[..k];
    assert forall k :: 0 <= k < n ==> (KnownKey(rows, seats, k) <==> KnownKey(rows, seats[..n], k));
  }

  lemma AddOneWellNumbered(s: Schedule, news: seq<Row>, seat: SeatRequest)
    requires MaxIndex(s.rows) == |s.rows| && WellNumbered(WithRows(s, news))
    requires AddOne(s.rows, s.nextId, news, seat).Ok?
    ensures WellNumbered(WithRows(s, AddOne(s.rows, s.nextId, news, seat).value))
  {
    if seat.key !in KeysOf(s.rows) && seat.key !in KeysOf(news) {
      AddedRow(s, news, Row(s.nextId + |news|, seat.key, |s.rows| + 1 + |news|));
    }
  }

  lemma AddedRow(s: Schedule, before: seq<Row>, row: Row)
    requires WellNumbered(WithRows(s, before))
    requires row.index == |s.rows| + |before| + 1 && row.id == s.nextId + |before|
    requires row.key !in KeysOf(s.rows) && row.key !in KeysOf(before)
    ensures WellNumbered(WithRows(s, before + [row]))
  {
    KeysOfConcat(s.rows, before);
    AppendRow(s, s.rows + before, s.nextId + |before|, row);
    assert s.rows + (before + [row]) == s.rows + before + [row];
  }

  lemma StepWellNumbered(s: Schedule, ev: Event)
    requires WellNumbered(s) && !ev.CopyLayout?
    ensures WellNumbered(Step(s, ev))
  {
    if ev.AddExtra? && Extras(s.rows, s.nextId, ev.seats).Ok? {
      MaxIsCount(s, |s.rows|);
      assert s.rows[..|s.rows|] == s.rows;
      ExtrasWellNumbered(s, ev.seats);
    }
  }

  // ---------------------------------------------------------------- theorems

  ghost predicate OnlyAfterCopy(run: seq<Event>) {
    forall k :: 0 <= k < |run| ==> !run[k].CopyLayout?
  }

  /** From a created schedule, whatever follows: indices exactly 1..n and distinct (row, number) pairs. */
  lemma {:induction false} AlwaysWellNumbered(layout: seq<(string, int)>, run: seq<Event>)
    requires OnlyAfterCopy(run)
    ensures WellNumbered(Exec(Created(layout), run))
  {
    if run == [] {
      CreatedWellNumbered(layout);
    } else {
      AlwaysWellNumbered(layout, run[..|run| - 1]);
      StepWellNumbered(Exec(Created(layout), run[..|run| - 1]), run[|run| - 1]);
    }
  }

  /** The schedule has been deleted in the run, and what was last done to it before that. */
  predicate WasDeleted(s: Schedule, run: seq<Event>) {
    s.deleted || Delete in run
  }

  function LastLifecycle(s: Schedule, run: seq<Event>): Lifecycle {
    if run == [] then s.lifecycle
    else
      var before, ev := run[..|run| - 1], run[|run| - 1];
      var was := LastLifecycle(s, before);
      if WasDeleted(s, before) then was
      else if ev == Delete || ev == Close then Closed
      else if ev == Start && was != Closed then Open
      else was
  }

  /** A schedule is open or closed as the last start, close or deletion left it: nothing opens a
      closed one again, and nothing moves a deleted one. */
  lemma {:induction false} LifecycleIsHistory(s: Schedule, run: seq<Event>)
    ensures Exec(s, run).lifecycle == LastLifecycle(s, run) && Exec(s, run).deleted == WasDeleted(s, run)
  {
    if run != [] {
      LifecycleIsHistory(s, run[..|run| - 1]);
      assert run == run[..|run| - 1] + [run[|run| - 1]];
    }
  }

  /** Once booking has opened or the schedule is closed, the seats never change again. */
  lemma {:induction false} SeatsFrozen(s: Schedule, run: seq<Event>)
    requires s.lifecycle != Scheduled && OnlyAfterCopy(run)
    ensures Exec(s, run).rows == s.rows && Exec(s, run).lifecycle != Scheduled
  {
    if run != [] {
      SeatsFrozen(s, run[..|run| - 1]);
    }
  }

  /** The schedule metadata of the socket server: seat id to seat index. */
  function MetadataOf(rows: seq<Row>): map<int, int> {
    if rows == [] then map[]
    else MetadataOf(rows[..|rows| - 1])[rows[|rows| - 1].id := rows[|rows| - 1].index]
  }

  lemma {:induction false} MetadataIs(s: Schedule, n: nat)
    requires WellNumbered(s) && n <= |s.rows|
    ensures forall id :: id in MetadataOf(s.rows[..n]) <==> exists k :: 0 <= k < n && s.rows[k].id == id
    ensures forall k :: 0 <= k < n ==> s.rows[k].id in MetadataOf(s.rows[..n]) && MetadataOf(s.rows[..n])[s.rows[k].id] == k + 1
  {
    if n > 0 {
      MetadataIs(s, n - 1);
      assert s.rows[..n][..n - 1] == s.rows[..n - 1];
    }
  }

  lemma MetadataSound(s: Schedule)
    requires WellNumbered(s)
    ensures SeatRegistry.Metadata(MetadataOf(s.rows), |s.rows|)
  {
    MetadataIs(s, |s.rows|);
    assert s.rows[..|s.rows|] == s.rows;
  }

  /**
   * End to end: when a schedule is open, registration calls checked against
   * its metadata are never refused by an actor made for its seat count, under
   * any interleaving, whatever else happens to the schedule meanwhile.
   */
  lemma OpenScheduleRegisters(layout: seq<(string, int)>, run: seq<Event>, later: seq<Event>, calls: seq<SeatRegistry.Event>)
    requires OnlyAfterCopy(run) && OnlyAfterCopy(later)
    requires Exec(Created(layout), run).lifecycle == Open
    requires var meta := MetadataOf(Exec(Created(layout), run).rows);
             forall k :: 0 <= k < |calls| ==> SeatRegistry.FromMetadata(meta, calls[k])
    ensures var booking := Exec(Created(layout), run);
            var actor := SeatRegistry.Exec(SeatRegistry.Init(|Exec(booking, later).rows|), calls);
            forall t :: t in actor.calls ==> !actor.calls[t].Refused?
  {
    var booking := Exec(Created(layout), run);
    AlwaysWellNumbered(layout, run);
    SeatsFrozen(booking, later);
    MetadataSound(booking);
    SeatRegistry.MetadataNeverRefused(MetadataOf(booking.rows), |booking.rows|, calls);
  }

  // ------------------------------------------- seats added while copying a layout

  /** The base row at position i meets no row that got in first. */
  predicate Kept(s: Schedule, keys: seq<(string, int)>, i: nat)
    requires i < |keys|
  {
    i >= |s.rows| && keys[i] !in KeysOf(s.rows)
  }

  function KeptRows(s: Schedule, keys: seq<(string, int)>, n: nat): seq<Row>
    requires n <= |keys|
  {
    if n == 0 then []
    else KeptRows(s, keys, n - 1) + if Kept(s, keys, n - 1) then [BaseRows(keys, s.nextId)[n - 1]] else []
  }

  lemma {:induction false} KeptRowsAre(s: Schedule, keys: seq<(string, int)>, n: nat)
    requires n <= |keys|
    ensures forall r :: r in KeptRows(s, keys, n) <==>
              exists i :: 0 <= i < n && Kept(s, keys, i) && r == BaseRows(keys, s.nextId)[i]
  {
    if n > 0 {
      KeptRowsAre(s, keys, n - 1);
    }
  }

  lemma {:induction false} InsertKeeps(s: Schedule, keys: seq<(string, int)>, n: nat)
    requires WellNumbered(s) && n <= |keys|
    requires forall i, j :: 0 <= i < j < |keys| ==> keys[i] != keys[j]
    ensures InsertAll(s.rows, BaseRows(keys, s.nextId)[..n]) == s.rows + KeptRows(s, keys, n)
  {
    if n > 0 {
      var news := BaseRows(keys, s.nextId);
      var r := news[n - 1];
      InsertKeeps(s, keys, n - 1);
      assert news[..n][..n - 1] == news[..n - 1];
      InsertLast(s.rows, news[..n], s.rows + KeptRows(s, keys, n - 1));
      DroppedIff(s, keys, n);
      assert s.rows + (KeptRows(s, keys, n - 1) + [r]) == s.rows + KeptRows(s, keys, n - 1) + [r];
      assert s.rows + (KeptRows(s, keys, n - 1) + []) == s.rows + KeptRows(s, keys, n - 1);
    }
  }

  /** The n-th base row meets a conflict exactly when it is not one to keep. */
  lemma DroppedIff(s: Schedule, keys: seq<(string, int)>, n: nat)
    requires WellNumbered(s) && 0 < n <= |keys|
    requires forall i, j :: 0 <= i < j < |keys| ==> keys[i] != keys[j]
    ensures Conflicts(s.rows + KeptRows(s, keys, n - 1), BaseRows(keys, s.nextId)[n - 1]) <==> !Kept(s, keys, n - 1)
  {
    var r := BaseRows(keys, s.nextId)[n - 1];
    var kept := KeptRows(s, keys, n - 1);
    var before := s.rows + kept;
    KeptRowsAre(s, keys, n - 1);
    if Kept(s, keys, n - 1) {
      forall k | 0 <= k < |before|
        ensures before[k].key != r.key && before[k].index != r.index
      {
        if k < |s.rows| {
          assert s.rows[k] in s.rows;
        } else {
          assert before[k] in kept;
        }
      }
    } else if n - 1 < |s.rows| {
      assert before[n - 1] == s.rows[n - 1];
    } else {
      var q :| q in s.rows && q.key == keys[n - 1];
      var k :| 0 <= k < |s.rows| && s.rows[k] == q;
      assert before[k].key == r.key;
    }
  }

  ghost predicate Contiguous(rows: seq<Row>) {
    forall k :: 0 <= k < |rows| ==> rows[k].index == k + 1
  }

  /** No base row is kept behind one that is dropped. */
  ghost predicate NoGap(s: Schedule, keys: seq<(string, int)>, n: nat)
    requires n <= |keys|
  {
    forall i, j :: |s.rows| <= i < j < n && Kept(s, keys, j) ==> Kept(s, keys, i)
  }

  lemma {:induction false} KeptWithoutGap(s: Schedule, keys: seq<(string, int)>, n: nat)
    requires n <= |keys|
    ensures |KeptRows(s, keys, n)| <= if n <= |s.rows| then 0 else n - |s.rows|
    ensures |KeptRows(s, keys, n)| == n - |s.rows| <==>
            n >= |s.rows| && forall i :: |s.rows| <= i < n ==> Kept(s, keys, i)
  {
    if n > 0 {
      KeptWithoutGap(s, keys, n - 1);
    }
  }

  lemma ContiguousLonger(rows: seq<Row>, r: Row)
    ensures Contiguous(rows + [r]) <==> Contiguous(rows) && r.index == |rows| + 1
  {
    assert (rows + [r])[|rows|] == r;
    assert forall k :: 0 <= k < |rows| ==> (rows + [r])[k] == rows[k];
  }

  lemma {:induction false} ContiguousIff(s: Schedule, keys: seq<(string, int)>, n: nat)
    requires WellNumbered(s) && n <= |keys|
    ensures Contiguous(s.rows + KeptRows(s, keys, n)) <==> NoGap(s, keys, n)
  {
    if n > 0 {
      ContiguousIff(s, keys, n - 1);
      KeptWithoutGap(s, keys, n - 1);
      var before := s.rows + KeptRows(s, keys, n - 1);
      var after := s.rows + KeptRows(s, keys, n);
      if Kept(s, keys, n - 1) {
        assert after == before + [BaseRows(keys, s.nextId)[n - 1]];
        ContiguousLonger(before, BaseRows(keys, s.nextId)[n - 1]);
      } else {
        assert after == before;
      }
    }
  }

  /**
   * `create_schedule` inserts the schedule and its seats in two statements. If
   * extra seats got in between, rows that conflict are dropped silently, and the
   * numbering stays 1..n exactly when no base row survives behind a dropped one.
   */
  lemma LateCopyIff(s: Schedule, layout: seq<(string, int)>)
    requires WellNumbered(s)
    ensures Contiguous(Step(s, CopyLayout(layout)).rows) <==> NoGap(s, Distinct(layout), |Distinct(layout)|)
  {
    var keys := Distinct(layout);
    DistinctIs(layout);
    InsertKeeps(s, keys, |keys|);
    assert BaseRows(keys, s.nextId)[..|keys|] == BaseRows(keys, s.nextId);
    ContiguousIff(s, keys, |keys|);
  }

  /** One extra seat that is also the layout's second seat leaves index 2 out. */
  lemma LateCopyLeavesGap()
    ensures var s := Step(NEW, AddExtra([SeatRequest(("A", 2), Some(100))]));
            !Contiguous(Step(s, CopyLayout([("A", 1), ("A", 2), ("A", 3)])).rows)
  {
    var request := [SeatRequest(("A", 2), Some(100))];
    assert request[..0] == [];
    assert Distinct([]) == [];
    assert Extras([], 1, []) == Ok([]);
    var s := Step(NEW, AddExtra(request));
    assert s.rows == [Row(1, ("A", 2), 1)] && s.nextId == 2;
    SecondSeatTaken(s, [("A", 1), ("A", 2), ("A", 3)]);
  }

  lemma SecondSeatTaken(s: Schedule, layout: seq<(string, int)>)
    requires s.rows == [Row(1, ("A", 2), 1)] && s.nextId == 2
    requires layout == [("A", 1), ("A", 2), ("A", 3)]
    ensures !Contiguous(Step(s, CopyLayout(layout)).rows)
  {
    ThreeDistinct(layout);
    assert WellNumbered(s);
    LateCopyIff(s, layout);
    assert s.rows[0] in s.rows && ("A", 2) in KeysOf(s.rows);
    assert Kept(s, layout, 2) && !Kept(s, layout, 1);
  }

  lemma ThreeDistinct(l: seq<(string, int)>)
    requires |l| == 3 && l[0] != l[1] && l[0] != l[2] && l[1] != l[2]
    ensures Distinct(l) == l
  {
    var one, two := [l[0]], [l[0], l[1]];
    DistinctAppend([], l[0]);
    assert [] + [l[0]] == one;
    DistinctAppend(one, l[1]);
    assert one + [l[1]] == two;
    DistinctAppend(two, l[2]);
    assert two + [l[2]] == l;
  }

  lemma DistinctAppend(l: seq<(string, int)>, key: (string, int))
    requires Distinct(l) == l && key !in l
    ensures Distinct(l + [key]) == l + [key]
  {
    assert (l + [key])[..|l|] == l;
  }

  // ----------------------------------------------------------------- the code

  class ScheduleTable {
    var rows: seq<Row>
    var lifecycle: Lifecycle
    var deleted: bool
    var nextId: int

    ghost function View(): Schedule
      reads this
    {
      Schedule(rows, lifecycle, deleted, nextId)
    }

    constructor ()
      ensures View() == NEW
    {
      rows, lifecycle, deleted, nextId := [], Scheduled, false, 1;
    }

    /** The seat-copying half of `create_schedule`. */
    method CreateSeats(layout: seq<(string, int)>)
      modifies this
      ensures View() == Step(old(View()), CopyLayout(layout))
    {
      var keys: seq<(string, int)> := [];
      for k := 0 to |layout|
        invariant keys == Distinct(layout[..k])
      {
        assert layout[..k + 1][..k] == layout[..k];
        if layout[k] !in keys {
          keys := keys + [layout[k]];
        }
      }
      assert layout[..|layout|] == layout;
      rows, nextId := InsertAll(rows, BaseRows(keys, nextId)), nextId + |keys|;
    }

    /** The loop over a request's seats, inside the transaction. */
    static method CollectExtras(rows: seq<Row>, nextId: int, seats: seq<SeatRequest>) returns (r: Result<seq<Row>, Error>)
      ensures r == Extras(rows, nextId, seats)
    {
      var taken := KeysOf(rows);
      var next := MaxIndex(rows);
      if next >= I32_MAX {
        ExtrasErrStays(rows, nextId, seats, 0);
        return Err(TooManySeats);
      }
      next := next + 1;
      var news: seq<Row> := [];
      for k := 0 to |seats|
        invariant Extras(rows, nextId, seats[..k]) == Ok(news)
        invariant taken == KeysOf(rows) + KeysOf(news)
        invariant next == MaxIndex(rows) + 1 + |news|
      {
        assert seats[..k + 1][..k] == seats[..k];
        assert Extras(rows, nextId, seats[..k + 1]) == AddOne(rows, nextId, news, seats[k]);
        if seats[k].key !in taken {
          if seats[k].price.None? {
            ExtrasErrStays(rows, nextId, seats, k + 1);
            return Err(InvalidPrice);
          }
          if next >= I32_MAX {
            ExtrasErrStays(rows, nextId, seats, k + 1);
            return Err(TooManySeats);
          }
          var row := Row(nextId + |news|, seats[k].key, next);
          AppendKey(news, row);
          news := news + [row];
          taken := taken + {seats[k].key};
          next := next + 1;
        }
      }
      assert seats[..|seats|] == seats;
      return Ok(news);
    }

    method AddExtraSeats(seats: seq<SeatRequest>) returns (r: Result<seq<Row>, Error>)
      modifies this
      ensures View() == Step(old(View()), AddExtra(seats))
      ensures r.Ok? ==> rows == old(rows) + r.value
      ensures r.Err? ==> View() == old(View())
      ensures r.Ok? <==> seats != [] && !old(deleted) && old(lifecycle) == Scheduled && Extras(old(rows), old(nextId), seats).Ok?
    {
      if seats == [] {
        return Err(Empty);
      }
      if deleted {
        return Err(NotFound);
      }
      if lifecycle != Scheduled {
        return Err(AlreadyStarted);
      }
      r := CollectExtras(rows, nextId, seats);
      if r.Ok? {
        rows, nextId := rows + r.value, nextId + |r.value|;
      }
    }

    method StartSchedule() returns (r: Result<(), Error>)
      modifies this
      ensures View() == Step(old(View()), Start)
      ensures r.Ok? <==> !old(deleted) && old(lifecycle) != Closed
    {
      if deleted {
        return Err(NotFound);
      }
      if lifecycle == Closed {
        return Err(ClosedForGood);
      }
      lifecycle := Open;
      return Ok(());
    }

    method CloseSchedule() returns (r: Result<(), Error>)
      modifies this
      ensures View() == Step(old(View()), Close)
      ensures r.Ok? <==> !old(deleted)
    {
      if deleted {
        return Err(NotFound);
      }
      lifecycle := Closed;
      return Ok(());
    }
  }

  lemma AppendKey(news: seq<Row>, row: Row)
    ensures KeysOf(news + [row]) == KeysOf(news) + {row.key}
  {
    forall key
      ensures key in KeysOf(news + [row]) <==> key in KeysOf(news) || key == row.key
    {
      assert row in news + [row];
    }
  }

  lemma {:induction false} ExtrasErrStays(rows: seq<Row>, nextId: int, seats: seq<SeatRequest>, k: nat)
    requires k <= |seats| && Extras(rows, nextId, seats[..k]).Err?
    ensures Extras(rows, nextId, seats) == Extras(rows, nextId, seats[..k])
    decreases |seats| - k
  {
    if k < |seats| {
      assert seats[..k + 1][..k] == seats[..k];
      ExtrasErrStays(rows, nextId, seats, k + 1);
    } else {
      assert seats[..k] == seats;
    }
  }
}
