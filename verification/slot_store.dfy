/** The slot collection (`SlotRepository` over the `Slot` schema): a
    lawyer's weekly slots, kept in insertion order. The schema's unique
    index on (lawyerId, day, startTime) refuses a second slot with the
    same three values. */
module SlotStore {

  import opened Outcome
  import opened Records
  import opened Slots

  type SlotTable = seq<Slot>

  /** The duplicate-key error the unique index raises (the message starts
      so; the rest names the clashing values). */
  const DuplicateKey: string := "E11000 duplicate key error collection: slots index: lawyerId_1_day_1_startTime_1"

  /** Two slots the unique index cannot tell apart. */
  predicate SameKey(a: Slot, b: Slot) {
    a.lawyerId == b.lawyerId && a.day == b.day && a.startTime == b.startTime
  }

  /** Whether the table already holds a slot with the key of `s`. */
  predicate Taken(t: SlotTable, s: Slot) {
    exists i :: 0 <= i < |t| && SameKey(t[i], s)
  }

  /** The index invariant: no two stored slots share a key. */
  predicate UniqueKeys(t: SlotTable) {
    forall i, j :: 0 <= i < j < |t| ==> !SameKey(t[i], t[j])
  }

  /** The table after a bulk insert, and the error that stopped it. */
  datatype Inserted = Inserted(table: SlotTable, error: Option<Error>)

  /** `insertMany`, ordered: the slots go in one by one, and the first one
      whose key is taken stops the insert with a duplicate-key error; the
      ones before it stay. On a table that keeps the index, the insert
      succeeds exactly when the whole batch fits the index. */
  function InsertMany(t: SlotTable, batch: seq<Slot>): (r: Inserted)
    ensures exists n :: 0 <= n <= |batch| && r.table == t + batch[..n]
    ensures r.error.None? ==> r.table == t + batch
    ensures r.error.Some? ==> r.error.value == Plain(DuplicateKey)
    ensures UniqueKeys(t) ==> UniqueKeys(r.table)
    ensures UniqueKeys(t) ==> (r.error.None? <==> UniqueKeys(t + batch))
    decreases |batch|
  {
    if |batch| == 0 then
      assert t + batch[..0] == t;
      Inserted(t, None)
    else if Taken(t, batch[0]) then
      assert t + batch[..0] == t;
      TakenBreaksIndex(t, batch);
      Inserted(t, Some(Plain(DuplicateKey)))
    else
      var next := t + [batch[0]];
      var r := InsertMany(next, batch[1..]);
      InsertOne(t, batch);
      var n :| 0 <= n <= |batch[1..]| && r.table == next + batch[1..][..n];
      assert next + batch[1..][..n] == t + batch[..n + 1];
      r
  }

  /** A batch whose first slot clashes with the table does not fit the index. */
  lemma TakenBreaksIndex(t: SlotTable, batch: seq<Slot>)
    requires |batch| > 0 && Taken(t, batch[0])
    ensures !UniqueKeys(t + batch)
  {
    var i :| 0 <= i < |t| && SameKey(t[i], batch[0]);
    assert (t + batch)[i] == t[i] && (t + batch)[|t|] == batch[0];
  }

  /** Putting in a first slot that does not clash keeps the index, and the
      rest of the batch then fits exactly when the whole batch did. */
  lemma InsertOne(t: SlotTable, batch: seq<Slot>)
    requires |batch| > 0 && !Taken(t, batch[0])
    ensures t + [batch[0]] + batch[1..] == t + batch
    ensures UniqueKeys(t) ==> UniqueKeys(t + [batch[0]])
    ensures UniqueKeys(t + batch) ==> UniqueKeys(t + [batch[0]])
  {
    var next := t + [batch[0]];
    assert next + batch[1..] == t + batch;
    if UniqueKeys(t) {
      forall i, j | 0 <= i < j < |next| ensures !SameKey(next[i], next[j]) {
        if j == |t| {
          assert next[i] == t[i];
        } else {
          assert next[i] == t[i] && next[j] == t[j];
        }
      }
    }
    if UniqueKeys(t + batch) {
      forall i, j | 0 <= i < j < |next| ensures !SameKey(next[i], next[j]) {
        assert next[i] == (t + batch)[i] && next[j] == (t + batch)[j];
      }
    }
  }

  /** The error the schema's validation raises (the message starts so;
      the rest names the missing paths). */
  const ValidationFailed: string := "Slot validation failed"

  /** Whether the slot schema as declared accepts a slot: `startTime` and
      `endTime` are both required, and a required text may not be empty. */
  predicate HasTimes(s: Slot) {
    s.startTime.Some? && s.startTime.value != "" && s.endTime.Some? && s.endTime.value != ""
  }

  /** `insertMany` over the schema as declared: an ordered insert validates
      the whole batch before writing, so one slot without both times fails
      the batch and nothing goes in; a batch that validates goes in as
      `InsertMany` puts it. */
  function InsertManyAsDeclared(t: SlotTable, batch: seq<Slot>): (r: Inserted)
    ensures (exists i :: 0 <= i < |batch| && !HasTimes(batch[i])) <==> r.error == Some(Plain(ValidationFailed))
    ensures r.error == Some(Plain(ValidationFailed)) ==> r.table == t
    ensures r.error != Some(Plain(ValidationFailed)) ==> r == InsertMany(t, batch)
  {
    if exists i :: 0 <= i < |batch| && !HasTimes(batch[i]) then Inserted(t, Some(Plain(ValidationFailed)))
    else InsertMany(t, batch)
  }

  /** The ids of some slots, in order. */
  function Ids(s: seq<Slot>): (ids: seq<string>)
    ensures |ids| == |s|
    ensures forall i :: 0 <= i < |s| ==> ids[i] == s[i].id
  {
    seq(|s|, i requires 0 <= i < |s| => s[i].id)
  }

  /** `findById`: the slot with that id. */
  function FindById(t: SlotTable, id: string): (r: Option<Slot>)
    ensures r.None? <==> forall i :: 0 <= i < |t| ==> t[i].id != id
    ensures r.Some? ==> r.value.id == id && r.value in t
  {
    var i := FirstIndex(t, (s: Slot) => s.id == id);
    if i < |t| then Some(t[i]) else None
  }

  /** `update(id, slot)` with the slot marked booked: the slot with that id
      becomes booked and keeps every other field; nothing else changes. */
  function MarkBooked(t: SlotTable, id: string): (r: SlotTable)
    ensures |r| == |t|
    ensures forall i :: 0 <= i < |t| && t[i].id != id ==> r[i] == t[i]
    ensures FindById(t, id).None? ==> r == t
    ensures FindById(t, id).Some? ==> FindById(r, id) == Some(FindById(t, id).value.(booked := true))
  {
    var hasId := (s: Slot) => s.id == id;
    var k := FirstIndex(t, hasId);
    if k < |t| then
      var r := t[k := t[k].(booked := true)];
      FirstIndexIs(r, hasId, k);
      r
    else t
  }

  /** Whether a slot is one of a lawyer's on a day, at one of the times. */
  predicate AtTimes(s: Slot, lawyerId: string, startTimes: seq<string>, day: Day) {
    s.lawyerId == lawyerId && s.day == day && s.startTime.Some? && s.startTime.value in startTimes
  }

  /** `findSlotIdsByStartTimes`: the ids of that lawyer's slots on that day
      whose start time is among those given. */
  function FindSlotIdsByStartTimes(t: SlotTable, lawyerId: string, startTimes: seq<string>, day: Day): (ids: seq<string>)
    ensures |ids| == Count(t, (s: Slot) => AtTimes(s, lawyerId, startTimes, day))
    ensures forall k :: 0 <= k < |ids| ==> exists i :: 0 <= i < |t| && t[i].id == ids[k] && AtTimes(t[i], lawyerId, startTimes, day)
    ensures forall i :: 0 <= i < |t| && AtTimes(t[i], lawyerId, startTimes, day) ==> t[i].id in ids
  {
    var found := Filter(t, (s: Slot) => AtTimes(s, lawyerId, startTimes, day));
    var ids := Ids(found);
    assert forall k :: 0 <= k < |ids| ==> found[k] in t;
    forall i | 0 <= i < |t| && AtTimes(t[i], lawyerId, startTimes, day) ensures t[i].id in ids {
      var k :| 0 <= k < |found| && found[k] == t[i];
      assert ids[k] == t[i].id;
    }
    ids
  }

  /** `findMany`: all of that lawyer's slots. */
  function FindMany(t: SlotTable, lawyerId: string): (r: SlotTable)
    ensures forall i :: 0 <= i < |r| ==> r[i] in t && r[i].lawyerId == lawyerId
    ensures forall i :: 0 <= i < |t| && t[i].lawyerId == lawyerId ==> t[i] in r
  {
    Filter(t, (s: Slot) => s.lawyerId == lawyerId)
  }

  /** `findManyByDay`: that lawyer's slots on the day; the status narrows
      the result only when it is given (`Some(true)` is "booked"). */
  function FindManyByDay(t: SlotTable, lawyerId: string, day: Day, status: Option<bool>): (r: SlotTable)
    ensures forall i :: 0 <= i < |r| ==>
              r[i] in t && r[i].lawyerId == lawyerId && r[i].day == day && (status.None? || r[i].booked == status.value)
    ensures forall i :: (0 <= i < |t| && t[i].lawyerId == lawyerId && t[i].day == day &&
                         (status.None? || t[i].booked == status.value)) ==> t[i] in r
  {
    Filter(t, (s: Slot) => s.lawyerId == lawyerId && s.day == day && (status.None? || s.booked == status.value))
  }

  /** `findManyByDaysAndTimes`: that lawyer's slots on any of the days at
      any of the times. */
  function FindManyByDaysAndTimes(t: SlotTable, lawyerId: string, days: seq<Day>, startTimes: seq<string>): (r: SlotTable)
    ensures forall i :: 0 <= i < |r| ==>
              r[i] in t && r[i].lawyerId == lawyerId && r[i].day in days && r[i].startTime.Some? && r[i].startTime.value in startTimes
    ensures forall i :: (0 <= i < |t| && t[i].lawyerId == lawyerId && t[i].day in days &&
                         t[i].startTime.Some? && t[i].startTime.value in startTimes) ==> t[i] in r
  {
    Filter(t, (s: Slot) => s.lawyerId == lawyerId && s.day in days && s.startTime.Some? && s.startTime.value in startTimes)
  }

  /** `findManyNotInSlotIds`: that lawyer's slots on the day, less the
      excluded ids. */
  function FindManyNotInSlotIds(t: SlotTable, lawyerId: string, day: Day, excluded: seq<string>): (r: SlotTable)
    ensures forall i :: 0 <= i < |r| ==> r[i] in t && r[i].lawyerId == lawyerId && r[i].day == day && r[i].id !in excluded
    ensures forall i :: 0 <= i < |t| && t[i].lawyerId == lawyerId && t[i].day == day && t[i].id !in excluded ==> t[i] in r
    ensures forall x :: multiset(r)[x] == if x.lawyerId == lawyerId && x.day == day && x.id !in excluded then multiset(t)[x] else 0
  {
    var keep := (s: Slot) => s.lawyerId == lawyerId && s.day == day && s.id !in excluded;
    FilterMultiset(t, keep);
    Filter(t, keep)
  }

  /** `deleteMany(ids)`: exactly the slots with those ids go, and the rest
      keep their order. */
  function DeleteMany(t: SlotTable, ids: seq<string>): (r: SlotTable)
    ensures forall i :: 0 <= i < |r| ==> r[i] in t && r[i].id !in ids
    ensures forall i :: 0 <= i < |t| && t[i].id !in ids ==> t[i] in r
    ensures IsSubsequence(r, t)
  {
    FilterIsSubsequence(t, (s: Slot) => s.id !in ids);
    Filter(t, (s: Slot) => s.id !in ids)
  }

  /** A row of the slot statistics: a day and how many slots fall on it. */
  datatype DayCount = DayCount(day: Day, count: nat)

  /** How many slots fall on a day. */
  function SlotsOn(t: SlotTable, d: Day): (n: nat)
    ensures n > 0 <==> exists i :: 0 <= i < |t| && t[i].day == d
  {
    Count(t, (s: Slot) => s.day == d)
  }

  /** The days of some rows, in order. */
  function RowDays(rows: seq<DayCount>): (ds: seq<Day>)
    ensures |ds| == |rows| && forall k :: 0 <= k < |rows| ==> ds[k] == rows[k].day
  {
    seq(|rows|, k requires 0 <= k < |rows| => rows[k].day)
  }

  /** A row for every day, in the order of the days. */
  function DayTotals(t: SlotTable): (full: seq<DayCount>)
    ensures |full| == 7
    ensures forall i :: 0 <= i < 7 ==> full[i] == DayCount(AllDays[i], SlotsOn(t, AllDays[i]))
    ensures Distinct(full)
  {
    var full := seq(7, i requires 0 <= i < 7 => DayCount(AllDays[i], SlotsOn(t, AllDays[i])));
    assert Distinct(full) by {
      forall i, j | 0 <= i < j < 7 ensures full[i] != full[j] {
        assert AllDays[i] != AllDays[j];
      }
    }
    full
  }

  /** `getSlotUsageCount`: one row for each day that holds slots, with the
      number of slots on it, no day twice. The grouping's row order is not
      fixed by the store; here it is the order of the days. */
  function SlotUsageCount(t: SlotTable): (rows: seq<DayCount>)
    ensures forall k :: 0 <= k < |rows| ==> rows[k].count > 0 && rows[k].count == SlotsOn(t, rows[k].day)
    ensures forall i :: 0 <= i < |t| ==> t[i].day in RowDays(rows)
    ensures forall j, k :: 0 <= j < k < |rows| ==> rows[j].day != rows[k].day
  {
    var full := DayTotals(t);
    var rows := Filter(full, (r: DayCount) => r.count > 0);
    FilterKeepsDistinct(full, (r: DayCount) => r.count > 0);
    assert forall k :: 0 <= k < |rows| ==> rows[k] in full;
    forall i | 0 <= i < |t| ensures t[i].day in RowDays(rows) {
      var a := DayIndex(t[i].day);
      assert full[a].count > 0;
      assert full[a] in rows;
    }
    rows
  }

  /** The slots the rows count, all together. */
  function Total(rows: seq<DayCount>): nat {
    if |rows| == 0 then 0 else rows[0].count + Total(rows[1..])
  }

  /** A slot adds one to the count of its own day and to no other. */
  lemma SlotsOnFirst(t: SlotTable, d: Day)
    requires |t| > 0
    ensures SlotsOn(t, d) == SlotsOn(t[1..], d) + if t[0].day == d then 1 else 0
  {
  }

  /** Every slot falls on exactly one day: the seven day counts add up to
      the size of the table. */
  lemma {:induction false} DayCountsCoverTable(t: SlotTable)
    ensures SlotsOn(t, Sunday) + SlotsOn(t, Monday) + SlotsOn(t, Tuesday) + SlotsOn(t, Wednesday) +
            SlotsOn(t, Thursday) + SlotsOn(t, Friday) + SlotsOn(t, Saturday) == |t|
    decreases |t|
  {
    if |t| > 0 {
      DayCountsCoverTable(t[1..]);
      SlotsOnFirst(t, Sunday);
      SlotsOnFirst(t, Monday);
      SlotsOnFirst(t, Tuesday);
      SlotsOnFirst(t, Wednesday);
      SlotsOnFirst(t, Thursday);
      SlotsOnFirst(t, Friday);
      SlotsOnFirst(t, Saturday);
    }
  }

  /** Rows with a count of 0 add nothing to the total. */
  lemma {:induction false} TotalWithoutZeros(rows: seq<DayCount>)
    ensures Total(Filter(rows, (r: DayCount) => r.count > 0)) == Total(rows)
    decreases |rows|
  {
    if |rows| > 0 {
      TotalWithoutZeros(rows[1..]);
    }
  }

  /** The total of seven rows, written out. */
  lemma TotalOfSeven(rows: seq<DayCount>)
    requires |rows| == 7
    ensures Total(rows) == rows[0].count + rows[1].count + rows[2].count + rows[3].count +
                           rows[4].count + rows[5].count + rows[6].count
  {
    forall k | 0 <= k < 7 ensures Total(rows[k..]) == rows[k].count + Total(rows[k + 1..]) {
      assert rows[k..][1..] == rows[k + 1..];
    }
    assert rows[0..] == rows && rows[7..] == [];
  }

  /** The statistics rows count every slot exactly once: their counts add up
      to the size of the table. */
  lemma UsageCoversTable(t: SlotTable)
    ensures Total(DayTotals(t)) == |t|
    ensures Total(SlotUsageCount(t)) == |t|
  {
    var full := DayTotals(t);
    DayCountsCoverTable(t);
    TotalOfSeven(full);
    assert full[0].count == SlotsOn(t, Sunday) && full[1].count == SlotsOn(t, Monday) &&
           full[2].count == SlotsOn(t, Tuesday) && full[3].count == SlotsOn(t, Wednesday) &&
           full[4].count == SlotsOn(t, Thursday) && full[5].count == SlotsOn(t, Friday) &&
           full[6].count == SlotsOn(t, Saturday);
    TotalWithoutZeros(full);
  }

  /** Deleting by id removes every slot with those ids and keeps the index
      invariant; inserting a batch that fits makes its slots findable. */
  lemma DeleteKeepsIndex(t: SlotTable, ids: seq<string>)
    requires UniqueKeys(t)
    ensures UniqueKeys(DeleteMany(t, ids))
    ensures forall id :: id in ids ==> FindById(DeleteMany(t, ids), id).None?
  {
    var r := DeleteMany(t, ids);
    SubsequenceKeepsUnique(r, t);
  }

  /** A subsequence of a table that keeps the index keeps it too. */
  lemma {:induction false} SubsequenceKeepsUnique(r: SlotTable, t: SlotTable)
    requires IsSubsequence(r, t) && UniqueKeys(t)
    ensures UniqueKeys(r)
    decreases |t|
  {
    if |r| > 0 {
      var tail := t[1..];
      assert UniqueKeys(tail) by {
        forall i, j | 0 <= i < j < |tail| ensures !SameKey(tail[i], tail[j]) {
          assert tail[i] == t[i + 1] && tail[j] == t[j + 1];
        }
      }
      if r[0] == t[0] {
        SubsequenceKeepsUnique(r[1..], tail);
        SubsequenceMembers(r[1..], tail);
        forall i, j | 0 <= i < j < |r| ensures !SameKey(r[i], r[j]) {
          if i == 0 {
            assert r[j] == r[1..][j - 1];
            var k :| 0 <= k < |tail| && tail[k] == r[j];
            assert t[k + 1] == r[j];
          } else {
            assert r[i] == r[1..][i - 1] && r[j] == r[1..][j - 1];
          }
        }
      } else {
        SubsequenceKeepsUnique(r, tail);
      }
    }
  }

  /** Every element of a subsequence occurs in the sequence. */
  lemma {:induction false} SubsequenceMembers<T>(r: seq<T>, t: seq<T>)
    requires IsSubsequence(r, t)
    ensures forall i :: 0 <= i < |r| ==> exists k :: 0 <= k < |t| && t[k] == r[i]
    decreases |t|
  {
    if |r| > 0 {
      if r[0] == t[0] {
        SubsequenceMembers(r[1..], t[1..]);
        forall i | 0 <= i < |r| ensures exists k :: 0 <= k < |t| && t[k] == r[i] {
          if i > 0 {
            assert r[i] == r[1..][i - 1];
            var k :| 0 <= k < |t[1..]| && t[1..][k] == r[i];
            assert t[k + 1] == r[i];
          }
        }
      } else {
        SubsequenceMembers(r, t[1..]);
        forall i | 0 <= i < |r| ensures exists k :: 0 <= k < |t| && t[k] == r[i] {
          var k :| 0 <= k < |t[1..]| && t[1..][k] == r[i];
          assert t[k + 1] == r[i];
        }
      }
    }
  }
}
