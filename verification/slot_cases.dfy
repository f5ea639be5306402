/** The slot use cases (`CreateSlotUseCase`, `DeleteSlotUseCase`,
    `GetSlotUseCase`): a lawyer adds and removes weekly slots, by day or for
    every day at once, and clients see the slots of a date that are still
    free, earliest first. */
module SlotCases {

  import opened Outcome
  import opened Records
  import opened Slots
  import opened SlotStore
  import opened Booking
  import SlotRules
  import Validators
  import Appointments

  // ---------------------------------------------------------------------
  // Creating slots.

  /** A write to the slot collection: the table it leaves behind and
      whether it succeeded. */
  datatype Written = Written(table: SlotTable, outcome: Check)

  /** A slot whose start time is one the time format accepts. */
  predicate WellTimed(s: Slot) {
    s.startTime.Some? && Validators.ParseTime(s.startTime.value).Some?
  }

  /** The slots a batch of inputs becomes: each keeps its own times and
      takes the lawyer, the day and a fresh id; none is booked. */
  function NewSlots(slots: seq<SlotInput>, lawyerId: string, day: Day, mint: nat -> string): (r: seq<Slot>)
    ensures |r| == |slots|
    ensures forall i :: 0 <= i < |slots| ==>
              r[i] == Slot(mint(i), lawyerId, slots[i].startTime, slots[i].endTime, day, false)
  {
    seq(|slots|, i requires 0 <= i < |slots| => Slot(mint(i), lawyerId, slots[i].startTime, slots[i].endTime, day, false))
  }

  /** `createManyByDay` (and `createForDay`, which is the same code): the
      lawyer id and every start time are checked before anything is
      written; the slots then go in, in order, with the lawyer and the day
      overriding whatever the input says. The unique index on (lawyer, day,
      start time) stops the insert at the first clash, keeping the slots
      before it. `mint` names the ids the store gives; `show` stands for
      `JSON.stringify`. */
  function CreateManyByDay(t: SlotTable, lawyerId: string, slots: seq<SlotInput>, day: Day, mint: nat -> string,
                           show: SlotInput -> string): (r: Written)
    ensures !Validators.IsIdText(lawyerId) ==> r == Written(t, Fail(Custom(BadRequest, Validators.IdMessage)))
    ensures (exists i :: 0 <= i < |slots| && !SlotRules.GoodStartTime(slots[i])) ==>
              r.table == t && r.outcome.Fail? && r.outcome.error.Custom? && r.outcome.error.status == BadRequest
    ensures r.outcome.Pass? ==> r.table == t + NewSlots(slots, lawyerId, day, mint)
    ensures r.outcome.Fail? && r.table != t ==> r.outcome == Fail(Plain(DuplicateKey))
    ensures |t| <= |r.table| <= |t| + |slots| && r.table[..|t|] == t
    ensures forall i :: |t| <= i < |r.table| ==>
              WellTimed(r.table[i]) && r.table[i].lawyerId == lawyerId && r.table[i].day == day && !r.table[i].booked
    ensures UniqueKeys(t) ==> UniqueKeys(r.table)
    ensures UniqueKeys(t) ==>
              (r.outcome.Pass? <==>
                 Validators.IsIdText(lawyerId) && (forall i :: 0 <= i < |slots| ==> SlotRules.GoodStartTime(slots[i])) &&
                 UniqueKeys(t + NewSlots(slots, lawyerId, day, mint)))
  {
    var checks := InputChecks(lawyerId, slots, show);
    if checks.Fail? then Written(t, checks) else StoreInputs(t, lawyerId, slots, day, mint)
  }

  /** The write `createManyByDay` makes once its inputs are checked. */
  function StoreInputs(t: SlotTable, lawyerId: string, slots: seq<SlotInput>, day: Day, mint: nat -> string): (r: Written)
    requires forall i :: 0 <= i < |slots| ==> SlotRules.GoodStartTime(slots[i])
    ensures r.outcome.Pass? ==> r.table == t + NewSlots(slots, lawyerId, day, mint)
    ensures r.outcome.Fail? ==> r.outcome == Fail(Plain(DuplicateKey))
    ensures |t| <= |r.table| <= |t| + |slots| && r.table[..|t|] == t
    ensures forall i :: |t| <= i < |r.table| ==>
              WellTimed(r.table[i]) && r.table[i].lawyerId == lawyerId && r.table[i].day == day && !r.table[i].booked
    ensures UniqueKeys(t) ==>
              UniqueKeys(r.table) && (r.outcome.Pass? <==> UniqueKeys(t + NewSlots(slots, lawyerId, day, mint)))
  {
    var w := Store(t, NewSlots(slots, lawyerId, day, mint));
    InsertedWellTimed(t, slots, lawyerId, day, mint, w.table);
    w
  }

  /** The checks `createManyByDay` and `deleteMany` run first: the lawyer
      id, then every start time. */
  function InputChecks(lawyerId: string, slots: seq<SlotInput>, show: SlotInput -> string): (c: Check)
    ensures c.Pass? <==> Validators.IsIdText(lawyerId) && forall i :: 0 <= i < |slots| ==> SlotRules.GoodStartTime(slots[i])
    ensures c.Fail? ==> c.error.Custom? && c.error.status == BadRequest
    ensures !Validators.IsIdText(lawyerId) ==> c == Fail(Custom(BadRequest, Validators.IdMessage))
  {
    SlotRules.StartTimeErrorIsBadRequest(slots, show);
    Then(Validators.ValidateIdFormat(lawyerId), SlotRules.ValidateSlotStartTimes(slots, show))
  }

  /** `createMany` (an ordered `insertMany`) seen as a write: the slots
      before the first clash go in, and the clash is the error. */
  function Store(t: SlotTable, batch: seq<Slot>): (r: Written)
    ensures |t| <= |r.table| <= |t| + |batch| && r.table == t + batch[..|r.table| - |t|]
    ensures r.table[..|t|] == t
    ensures r.outcome.Pass? ==> r.table == t + batch
    ensures r.outcome.Fail? ==> r.outcome == Fail(Plain(DuplicateKey))
    ensures UniqueKeys(t) ==> UniqueKeys(r.table) && (r.outcome.Pass? <==> UniqueKeys(t + batch))
  {
    var ins := InsertMany(t, batch);
    assert |t| <= |ins.table| <= |t| + |batch| && ins.table == t + batch[..|ins.table| - |t|] by {
      var n :| 0 <= n <= |batch| && ins.table == t + batch[..n];
    }
    assert ins.table[..|t|] == t;
    Written(ins.table, if ins.error.Some? then Fail(ins.error.value) else Pass)
  }

  /** What an insert of accepted inputs adds is well timed, the lawyer's,
      on the day and not booked. */
  lemma InsertedWellTimed(t: SlotTable, slots: seq<SlotInput>, lawyerId: string, day: Day, mint: nat -> string, table: SlotTable)
    requires forall i :: 0 <= i < |slots| ==> SlotRules.GoodStartTime(slots[i])
    requires |t| <= |table| <= |t| + |slots| && table == t + NewSlots(slots, lawyerId, day, mint)[..|table| - |t|]
    ensures forall i :: |t| <= i < |table| ==>
              WellTimed(table[i]) && table[i].lawyerId == lawyerId && table[i].day == day && !table[i].booked
  {
    var batch := NewSlots(slots, lawyerId, day, mint);
    forall i | |t| <= i < |table|
      ensures WellTimed(table[i]) && table[i].lawyerId == lawyerId && table[i].day == day && !table[i].booked
    {
      assert table[i] == batch[i - |t|];
    }
  }

  /** Whether the table holds a slot of that lawyer on that day starting at
      that time. */
  predicate Offers(t: SlotTable, lawyerId: string, day: Day, time: string) {
    exists i :: 0 <= i < |t| && t[i].lawyerId == lawyerId && t[i].day == day && t[i].startTime == Some(time)
  }

  /** The inputs `createForAllDays` builds: a start time each, nothing else. */
  function AsInputs(times: seq<string>): (r: seq<SlotInput>)
    ensures |r| == |times| && forall k :: 0 <= k < |times| ==> r[k] == SlotInput(Some(times[k]), None)
  {
    seq(|times|, k requires 0 <= k < |times| => SlotInput(Some(times[k]), None))
  }

  /** The start-time check never names a slot for inputs built from times. */
  function NoShow(slot: SlotInput): string { "" }

  /** A start time alone passes the slot check exactly when its format
      does. */
  lemma GoodTimes(times: seq<string>)
    ensures forall k :: 0 <= k < |times| ==>
              (SlotRules.GoodStartTime(AsInputs(times)[k]) <==> Validators.ParseTime(times[k]).Some?)
  {
  }

  /** Start times alone all pass the slot check exactly when all their
      formats do. */
  lemma AllGoodTimes(times: seq<string>)
    ensures (forall i :: 0 <= i < |AsInputs(times)| ==> SlotRules.GoodStartTime(AsInputs(times)[i])) <==>
            (forall k :: 0 <= k < |times| ==> Validators.ParseTime(times[k]).Some?)
  {
    GoodTimes(times);
  }

  /** The start times of inputs built from times are those times. */
  lemma TimesOfInputs(times: seq<string>)
    ensures StartTimes(AsInputs(times)) == times
  {
  }

  /** The check every time of a whole-week request passes first, in order:
      the time format, then a length of 7 to 11 characters. A time of the
      right format always has the right length, so the first failure is
      always the format's. */
  function CheckTimes(times: seq<string>): (c: Check)
    ensures c.Pass? <==> forall k :: 0 <= k < |times| ==> Validators.ParseTime(times[k]).Some?
    ensures c.Fail? ==> c.error == Custom(BadRequest, Validators.TimeMessage)
  {
    if |times| == 0 then Pass
    else
      var format := Validators.ValidateTimeFormat(times[0]);
      var length := Validators.ValidateLength(times[0], 7, Some(11));
      assert format.Pass? ==> length.Pass? by {
        if format.Pass? {
          Validators.TimeLengthRuleRedundant(times[0]);
        }
      }
      assert forall k :: 1 <= k < |times| ==> times[k] == times[1..][k - 1];
      Then(Then(format, length), CheckTimes(times[1..]))
  }

  /** A table that extends another keeps what it offered. */
  lemma OffersKept(a: SlotTable, b: SlotTable, lawyerId: string, day: Day, time: string)
    requires |a| <= |b| && b[..|a|] == a
    requires Offers(a, lawyerId, day, time)
    ensures Offers(b, lawyerId, day, time)
  {
    var i :| 0 <= i < |a| && a[i].lawyerId == lawyerId && a[i].day == day && a[i].startTime == Some(time);
    assert b[i] == b[..|a|][i];
  }

  /** The ids the store gives the slots of day `d`. */
  function DayMint(mint: (Day, nat) -> string, d: Day): nat -> string {
    (i: nat) => mint(d, i)
  }

  /** The loop of `createForAllDays`: `createManyByDay` for each day in
      turn, stopping at the first that fails. Day `d` names its slots'
      ids with `mint(d, _)`. */
  function CreateForDays(t: SlotTable, lawyerId: string, times: seq<string>, days: seq<Day>,
                         mint: (Day, nat) -> string): (r: Written)
    ensures |t| <= |r.table| && r.table[..|t|] == t
    ensures UniqueKeys(t) ==> UniqueKeys(r.table)
    ensures forall i :: |t| <= i < |r.table| ==>
              WellTimed(r.table[i]) && r.table[i].lawyerId == lawyerId && r.table[i].day in days
    ensures |days| > 0 && !Validators.IsIdText(lawyerId) ==> r == Written(t, Fail(Custom(BadRequest, Validators.IdMessage)))
    ensures r.outcome.Pass? ==>
              forall j, k :: 0 <= j < |days| && 0 <= k < |times| ==> Offers(r.table, lawyerId, days[j], times[k])
    decreases |days|
  {
    if |days| == 0 then Written(t, Pass)
    else
      var d := days[0];
      var w := CreateManyByDay(t, lawyerId, AsInputs(times), d, DayMint(mint, d), NoShow);
      assert d in days;
      if w.outcome.Fail? then
        w
      else
        var r := CreateForDays(w.table, lawyerId, times, days[1..], mint);
        assert w.table == t + NewSlots(AsInputs(times), lawyerId, d, DayMint(mint, d));
        BatchOffers(t, lawyerId, times, d, DayMint(mint, d));
        LaterDays(t, w.table, r.table, r.outcome.Pass?, lawyerId, times, days);
        assert Validators.IsIdText(lawyerId);
        r
  }

  /** A day's batch offers each of its times on that day. */
  lemma BatchOffers(t: SlotTable, lawyerId: string, times: seq<string>, d: Day, mint: nat -> string)
    ensures forall k :: 0 <= k < |times| ==> Offers(t + NewSlots(AsInputs(times), lawyerId, d, mint), lawyerId, d, times[k])
  {
    var all := t + NewSlots(AsInputs(times), lawyerId, d, mint);
    forall k | 0 <= k < |times| ensures Offers(all, lawyerId, d, times[k]) {
      assert all[|t| + k].startTime == Some(times[k]);
    }
  }

  /** One turn of the loop of `createForAllDays`: what the first day wrote
      and what the later days wrote together make what all the days wrote. */
  lemma LaterDays(t: SlotTable, w: SlotTable, r: SlotTable, pass: bool, lawyerId: string, times: seq<string>, days: seq<Day>)
    requires |days| > 0
    requires |t| <= |w| && w[..|t|] == t
    requires forall i :: |t| <= i < |w| ==> WellTimed(w[i]) && w[i].lawyerId == lawyerId && w[i].day == days[0]
    requires forall k :: 0 <= k < |times| ==> Offers(w, lawyerId, days[0], times[k])
    requires |w| <= |r| && r[..|w|] == w
    requires forall i :: |w| <= i < |r| ==> WellTimed(r[i]) && r[i].lawyerId == lawyerId && r[i].day in days[1..]
    requires pass ==> forall j, k :: 0 <= j < |days[1..]| && 0 <= k < |times| ==> Offers(r, lawyerId, days[1..][j], times[k])
    ensures r[..|t|] == t
    ensures forall i :: |t| <= i < |r| ==> WellTimed(r[i]) && r[i].lawyerId == lawyerId && r[i].day in days
    ensures pass ==> forall j, k :: 0 <= j < |days| && 0 <= k < |times| ==> Offers(r, lawyerId, days[j], times[k])
  {
    assert r[..|t|] == r[..|w|][..|t|];
    forall i | |t| <= i < |r| ensures WellTimed(r[i]) && r[i].lawyerId == lawyerId && r[i].day in days {
      if i < |w| {
        assert r[i] == r[..|w|][i];
      } else {
        assert r[i].day in days[1..];
      }
    }
    if pass {
      forall j, k | 0 <= j < |days| && 0 <= k < |times| ensures Offers(r, lawyerId, days[j], times[k]) {
        if j == 0 {
          OffersKept(w, r, lawyerId, days[0], times[k]);
        } else {
          assert days[j] == days[1..][j - 1];
        }
      }
    }
  }

  /** None of the lawyer's stored slots on those days starts at one of the
      times. */
  predicate FreeAt(t: SlotTable, lawyerId: string, times: seq<string>, days: seq<Day>) {
    forall i :: 0 <= i < |t| && t[i].lawyerId == lawyerId && t[i].day in days ==>
      t[i].startTime.None? || t[i].startTime.value !in times
  }

  /** A batch of distinct, well-formed times on a day where the lawyer has
      none of them fits the unique index. */
  lemma BatchFits(t: SlotTable, lawyerId: string, times: seq<string>, d: Day, days: seq<Day>, mint: nat -> string)
    requires UniqueKeys(t) && Distinct(times) && d in days
    requires FreeAt(t, lawyerId, times, days)
    ensures UniqueKeys(t + NewSlots(AsInputs(times), lawyerId, d, mint))
  {
    var batch := NewSlots(AsInputs(times), lawyerId, d, mint);
    var all := t + batch;
    forall i, j | 0 <= i < j < |all| ensures !SameKey(all[i], all[j]) {
      if j >= |t| {
        assert all[j] == batch[j - |t|];
        if i >= |t| {
          assert all[i] == batch[i - |t|];
        } else {
          assert all[i] == t[i];
        }
      }
    }
  }

  /** `createForAllDays` succeeds when the lawyer id is an id, the times
      are well formed and distinct, and the lawyer has none of them on any
      of the days yet. */
  lemma {:induction false} CreateForDaysSucceeds(t: SlotTable, lawyerId: string, times: seq<string>, days: seq<Day>,
                                                 mint: (Day, nat) -> string)
    requires UniqueKeys(t) && Validators.IsIdText(lawyerId) && Distinct(times) && Distinct(days)
    requires forall k :: 0 <= k < |times| ==> Validators.ParseTime(times[k]).Some?
    requires FreeAt(t, lawyerId, times, days)
    ensures CreateForDays(t, lawyerId, times, days, mint).outcome.Pass?
    decreases |days|
  {
    if |days| > 0 {
      var d := days[0];
      var f := DayMint(mint, d);
      GoodTimes(times);
      BatchFits(t, lawyerId, times, d, days, f);
      var w := CreateManyByDay(t, lawyerId, AsInputs(times), d, f, NoShow);
      assert w.outcome.Pass?;
      var rest := days[1..];
      assert Distinct(rest) by {
        forall i, j | 0 <= i < j < |rest| ensures rest[i] != rest[j] {
          assert rest[i] == days[i + 1] && rest[j] == days[j + 1];
        }
      }
      assert FreeAt(w.table, lawyerId, times, rest) by {
        forall i | 0 <= i < |w.table| && w.table[i].lawyerId == lawyerId && w.table[i].day in rest
          ensures w.table[i].startTime.None? || w.table[i].startTime.value !in times
        {
          if i < |t| {
            assert w.table[i] == t[i];
          }
        }
      }
      CreateForDaysSucceeds(w.table, lawyerId, times, rest, mint);
    }
  }

  /** The loop over the whole week offers every time on every day when it
      succeeds, and it succeeds when nothing clashes. */
  lemma WholeWeek(t: SlotTable, lawyerId: string, times: seq<string>, mint: (Day, nat) -> string)
    ensures var r := CreateForDays(t, lawyerId, times, AllDays, mint);
            r.outcome.Pass? ==> forall d: Day, k :: 0 <= k < |times| ==> Offers(r.table, lawyerId, d, times[k])
    ensures (UniqueKeys(t) && Validators.IsIdText(lawyerId) && Distinct(times) && FreeAt(t, lawyerId, times, AllDays) &&
             (forall k :: 0 <= k < |times| ==> Validators.ParseTime(times[k]).Some?)) ==>
              CreateForDays(t, lawyerId, times, AllDays, mint).outcome.Pass?
  {
    var r := CreateForDays(t, lawyerId, times, AllDays, mint);
    if r.outcome.Pass? {
      forall d: Day, k | 0 <= k < |times| ensures Offers(r.table, lawyerId, d, times[k]) {
        assert AllDays[DayIndex(d)] == d;
      }
    }
    if UniqueKeys(t) && Validators.IsIdText(lawyerId) && Distinct(times) && FreeAt(t, lawyerId, times, AllDays) &&
       (forall k :: 0 <= k < |times| ==> Validators.ParseTime(times[k]).Some?) {
      DaysDistinct();
      CreateForDaysSucceeds(t, lawyerId, times, AllDays, mint);
    }
  }

  /** `createForAllDays`: every time is checked first (format, then
      length); then each day of the week, Sunday first, gets one slot per
      time, and the first day whose insert fails stops the rest. */
  function CreateForAllDays(t: SlotTable, lawyerId: string, times: seq<string>, mint: (Day, nat) -> string): (r: Written)
    ensures (exists k :: 0 <= k < |times| && Validators.ParseTime(times[k]).None?) ==>
              r == Written(t, Fail(Custom(BadRequest, Validators.TimeMessage)))
    ensures (forall k :: 0 <= k < |times| ==> Validators.ParseTime(times[k]).Some?) && !Validators.IsIdText(lawyerId) ==>
              r == Written(t, Fail(Custom(BadRequest, Validators.IdMessage)))
    ensures |t| <= |r.table| && r.table[..|t|] == t
    ensures UniqueKeys(t) ==> UniqueKeys(r.table)
    ensures forall i :: |t| <= i < |r.table| ==> WellTimed(r.table[i]) && r.table[i].lawyerId == lawyerId
    ensures r.outcome.Pass? ==> forall d: Day, k :: 0 <= k < |times| ==> Offers(r.table, lawyerId, d, times[k])
    ensures (UniqueKeys(t) && Validators.IsIdText(lawyerId) && Distinct(times) && FreeAt(t, lawyerId, times, AllDays) &&
             (forall k :: 0 <= k < |times| ==> Validators.ParseTime(times[k]).Some?)) ==> r.outcome.Pass?
  {
    match CheckTimes(times)
    case Fail(e) => Written(t, Fail(e))
    case Pass =>
      var r := CreateForDays(t, lawyerId, times, AllDays, mint);
      WholeWeek(t, lawyerId, times, mint);
      r
  }

  // ---------------------------------------------------------------------
  // Creating slots over the schema as declared, whose `endTime` is required.

  /** `createManyByDay` over the schema as declared: the same checks, then
      a batch in which some slot has no end time fails validation and
      nothing is written. */
  function CreateManyByDayAsWritten(t: SlotTable, lawyerId: string, slots: seq<SlotInput>, day: Day, mint: nat -> string,
                                    show: SlotInput -> string): (r: Written)
    ensures !Validators.IsIdText(lawyerId) ==> r == Written(t, Fail(Custom(BadRequest, Validators.IdMessage)))
    ensures Validators.IsIdText(lawyerId) && (forall i :: 0 <= i < |slots| ==> SlotRules.GoodStartTime(slots[i])) &&
            (exists i :: 0 <= i < |slots| && (slots[i].endTime.None? || slots[i].endTime == Some(""))) ==>
              r == Written(t, Fail(Plain(ValidationFailed)))
    ensures r.outcome.Pass? ==>
              r.table == t + NewSlots(slots, lawyerId, day, mint) &&
              forall i :: 0 <= i < |slots| ==> slots[i].endTime.Some? && slots[i].endTime.value != ""
  {
    var checks := InputChecks(lawyerId, slots, show);
    if checks.Fail? then Written(t, checks)
    else
      var batch := NewSlots(slots, lawyerId, day, mint);
      BatchTimes(slots, lawyerId, day, mint);
      var ins := InsertManyAsDeclared(t, batch);
      Written(ins.table, if ins.error.Some? then Fail(ins.error.value) else Pass)
  }

  /** A checked input becomes a slot the declared schema accepts exactly
      when it carries an end time. */
  lemma BatchTimes(slots: seq<SlotInput>, lawyerId: string, day: Day, mint: nat -> string)
    requires forall i :: 0 <= i < |slots| ==> SlotRules.GoodStartTime(slots[i])
    ensures forall i :: 0 <= i < |slots| ==>
              (HasTimes(NewSlots(slots, lawyerId, day, mint)[i]) <==> slots[i].endTime.Some? && slots[i].endTime.value != "")
  {
  }

  /** The loop of `createForAllDays` over the schema as declared. The slots
      it builds carry no end time, so every day whose batch is not empty
      fails validation and nothing is ever written. */
  function CreateForDaysAsWritten(t: SlotTable, lawyerId: string, times: seq<string>, days: seq<Day>,
                                  mint: (Day, nat) -> string): (r: Written)
    ensures r.table == t
    ensures r.outcome.Pass? <==> |days| == 0 || (Validators.IsIdText(lawyerId) && |times| == 0)
    ensures |days| > 0 && !Validators.IsIdText(lawyerId) ==> r == Written(t, Fail(Custom(BadRequest, Validators.IdMessage)))
    ensures |days| > 0 && Validators.IsIdText(lawyerId) && |times| > 0 &&
            (forall k :: 0 <= k < |times| ==> Validators.ParseTime(times[k]).Some?) ==>
              r == Written(t, Fail(Plain(ValidationFailed)))
    decreases |days|
  {
    if |days| == 0 then Written(t, Pass)
    else
      var d := days[0];
      var inputs := AsInputs(times);
      var w := CreateManyByDayAsWritten(t, lawyerId, inputs, d, DayMint(mint, d), NoShow);
      assert (forall k :: 0 <= k < |times| ==> Validators.ParseTime(times[k]).Some?) ==>
               forall i :: 0 <= i < |inputs| ==> SlotRules.GoodStartTime(inputs[i]) by {
        GoodTimes(times);
      }
      assert |times| > 0 ==> inputs[0].endTime.None?;
      if w.outcome.Fail? then w
      else CreateForDaysAsWritten(w.table, lawyerId, times, days[1..], mint)
  }

  /** `createForAllDays` as written: the times are checked as before, and
      then the loop writes nothing. It succeeds only for an empty list of
      times; every other call that passes the checks fails validation. */
  function CreateForAllDaysAsWritten(t: SlotTable, lawyerId: string, times: seq<string>, mint: (Day, nat) -> string): (r: Written)
    ensures r.table == t
    ensures r.outcome.Pass? <==> |times| == 0 && Validators.IsIdText(lawyerId)
    ensures (exists k :: 0 <= k < |times| && Validators.ParseTime(times[k]).None?) ==>
              r.outcome == Fail(Custom(BadRequest, Validators.TimeMessage))
    ensures ((forall k :: 0 <= k < |times| ==> Validators.ParseTime(times[k]).Some?) &&
             Validators.IsIdText(lawyerId) && |times| > 0) ==> r.outcome == Fail(Plain(ValidationFailed))
  {
    match CheckTimes(times)
    case Fail(e) => Written(t, Fail(e))
    case Pass =>
      assert |AllDays| > 0;
      CreateForDaysAsWritten(t, lawyerId, times, AllDays, mint)
  }

  /** Every request that the corrected schema lets fill the week with at
      least one time is refused as written, with the table untouched. */
  lemma WeekLostAsWritten(t: SlotTable, lawyerId: string, times: seq<string>, mint: (Day, nat) -> string)
    requires |times| > 0 && CreateForAllDays(t, lawyerId, times, mint).outcome.Pass?
    ensures CreateForAllDaysAsWritten(t, lawyerId, times, mint) == Written(t, Fail(Plain(ValidationFailed)))
    ensures forall d: Day :: Offers(CreateForAllDays(t, lawyerId, times, mint).table, lawyerId, d, times[0])
  {
  }

  // ---------------------------------------------------------------------
  // Deleting slots.

  const UnavailableMessage: string := "Your appointment has been cancelled due to lawyer unavailability"

  /** The notice the client of an appointment gets when the lawyer removes
      its slot. */
  function UnavailableNotice(a: Appointments.Appointment): Notification {
    Notification(ToUser(a.clientId), AppointmentCanceled, UnavailableMessage, None)
  }

  /** One notice per appointment, in order. */
  function Notices(t: Appointments.Table): (r: seq<Notification>)
    ensures |r| == |t| && forall k :: 0 <= k < |t| ==> r[k] == UnavailableNotice(t[k])
  {
    seq(|t|, k requires 0 <= k < |t| => UnavailableNotice(t[k]))
  }

  /** The ids of appointments, in order. */
  function AppointmentIdsOf(t: Appointments.Table): (ids: seq<string>)
    ensures |ids| == |t| && forall k :: 0 <= k < |t| ==> ids[k] == t[k].id
  {
    seq(|t|, k requires 0 <= k < |t| => t[k].id)
  }

  /** `slots.map(slot => slot.startTime!)`: the start times of checked
      inputs, which all have one. */
  function StartTimes(slots: seq<SlotInput>): (times: seq<string>)
    ensures |times| == |slots| && forall k :: 0 <= k < |slots| ==> times[k] == slots[k].startTime.GetOr("")
  {
    seq(|slots|, k requires 0 <= k < |slots| => slots[k].startTime.GetOr(""))
  }

  /** An appointment booked in one of the stored slots of that lawyer and
      day at one of the times. */
  predicate InTargetSlot(slots: SlotTable, a: Appointments.Appointment, lawyerId: string, times: seq<string>, day: Day) {
    exists i :: 0 <= i < |slots| && slots[i].id == a.slotId && AtTimes(slots[i], lawyerId, times, day)
  }

  /** `InTargetSlot` as a filter. */
  function Targeted(slots: SlotTable, lawyerId: string, times: seq<string>, day: Day): Appointments.Appointment -> bool {
    (a: Appointments.Appointment) => InTargetSlot(slots, a, lawyerId, times, day)
  }

  /** No targeted slot shares the id of the `i`-th slot. */
  predicate UnsharedSlot(slots: SlotTable, i: int, lawyerId: string, times: seq<string>, day: Day)
    requires 0 <= i < |slots|
  {
    forall k :: 0 <= k < |slots| && AtTimes(slots[k], lawyerId, times, day) ==> slots[k].id != slots[i].id
  }

  /** No appointment in a targeted slot shares the id of the `j`-th
      appointment. */
  predicate UnsharedAppointment(slots: SlotTable, t: Appointments.Table, j: int, lawyerId: string, times: seq<string>, day: Day)
    requires 0 <= j < |t|
  {
    forall k :: 0 <= k < |t| && InTargetSlot(slots, t[k], lawyerId, times, day) ==> t[k].id != t[j].id
  }

  /** The slots after a deletion: none of them is targeted, each was there
      before, in the same order, and every slot whose id no targeted slot
      shares is still there. */
  predicate SlotsRemoved(before: SlotTable, after: SlotTable, lawyerId: string, times: seq<string>, day: Day) {
    && (forall i :: 0 <= i < |after| ==> after[i] in before && !AtTimes(after[i], lawyerId, times, day))
    && (forall i :: 0 <= i < |before| && UnsharedSlot(before, i, lawyerId, times, day) ==> before[i] in after)
    && IsSubsequence(after, before)
  }

  /** The appointments after a deletion: none is booked in a targeted slot,
      each was there before, in the same order, and every appointment whose
      id no appointment in a targeted slot shares is still there. */
  predicate AppointmentsRemoved(slots: SlotTable, before: Appointments.Table, after: Appointments.Table,
                                lawyerId: string, times: seq<string>, day: Day) {
    && (forall j :: 0 <= j < |after| ==> after[j] in before && !InTargetSlot(slots, after[j], lawyerId, times, day))
    && (forall j :: 0 <= j < |before| && UnsharedAppointment(slots, before, j, lawyerId, times, day) ==> before[j] in after)
    && IsSubsequence(after, before)
  }

  /** The notices after a deletion: the old ones, then exactly one notice
      per appointment booked in a targeted slot, addressed to its client. */
  predicate NoticesSent(slots: SlotTable, t: Appointments.Table, before: seq<Notification>, after: seq<Notification>,
                        lawyerId: string, times: seq<string>, day: Day) {
    && |before| <= |after| && after[..|before|] == before
    && (forall k :: |before| <= k < |after| ==> NoticeOfTarget(slots, t, after[k], lawyerId, times, day))
    && (forall j :: 0 <= j < |t| && InTargetSlot(slots, t[j], lawyerId, times, day) ==>
          UnavailableNotice(t[j]) in after[|before|..])
    && |after| - |before| == Count(t, Targeted(slots, lawyerId, times, day))
  }

  /** The notice is the one for some appointment in a targeted slot. */
  predicate NoticeOfTarget(slots: SlotTable, t: Appointments.Table, n: Notification, lawyerId: string, times: seq<string>, day: Day) {
    exists j :: 0 <= j < |t| && InTargetSlot(slots, t[j], lawyerId, times, day) && n == UnavailableNotice(t[j])
  }

  /** What `deleteMany` does once its input is checked: the slots of that
      lawyer and day at those times are looked up; if there are any, each
      appointment booked in them gets a notice to its client, those
      appointments are deleted, and then the slots. Payments are neither
      refunded nor touched. */
  function Cascade(st: State, lawyerId: string, times: seq<string>, day: Day): (r: State)
    ensures r.payments == st.payments && r.sections == st.sections && r.refunds == st.refunds
    ensures SlotsRemoved(st.slots, r.slots, lawyerId, times, day)
    ensures AppointmentsRemoved(st.slots, st.appointments, r.appointments, lawyerId, times, day)
    ensures NoticesSent(st.slots, st.appointments, st.notifications, r.notifications, lawyerId, times, day)
  {
    var ids := FindSlotIdsByStartTimes(st.slots, lawyerId, times, day);
    TargetIds(st.slots, ids, lawyerId, times, day);
    if |ids| == 0 then
      NothingTargeted(st, ids, lawyerId, times, day);
      st
    else
      var affected := Appointments.FindBySlotIds(st.appointments, ids);
      var remaining := Appointments.DeleteMany(st.appointments, AppointmentIdsOf(affected));
      RemainingAppointments(st, ids, affected, remaining, lawyerId, times, day);
      var slots := SlotStore.DeleteMany(st.slots, ids);
      RemainingSlots(st.slots, ids, slots, lawyerId, times, day);
      var told := st.notifications + Notices(affected);
      NoticesAdded(st, affected, told, lawyerId, times, day, ids);
      st.(notifications := told, appointments := remaining, slots := slots)
  }

  /** A slot id is among the ids found exactly when a targeted slot has
      it. */
  lemma TargetIds(slots: SlotTable, ids: seq<string>, lawyerId: string, times: seq<string>, day: Day)
    requires ids == FindSlotIdsByStartTimes(slots, lawyerId, times, day)
    ensures forall x :: x in ids <==> exists i :: 0 <= i < |slots| && slots[i].id == x && AtTimes(slots[i], lawyerId, times, day)
  {
    forall x | x in ids
      ensures exists i :: 0 <= i < |slots| && slots[i].id == x && AtTimes(slots[i], lawyerId, times, day)
    {
      var k :| 0 <= k < |ids| && ids[k] == x;
    }
  }

  /** With nothing targeted, nothing changes, and that is a deletion of
      nothing. */
  lemma NothingTargeted(st: State, ids: seq<string>, lawyerId: string, times: seq<string>, day: Day)
    requires |ids| == 0
    requires forall x :: x in ids <==> exists i :: 0 <= i < |st.slots| && st.slots[i].id == x && AtTimes(st.slots[i], lawyerId, times, day)
    ensures SlotsRemoved(st.slots, st.slots, lawyerId, times, day)
    ensures AppointmentsRemoved(st.slots, st.appointments, st.appointments, lawyerId, times, day)
    ensures NoticesSent(st.slots, st.appointments, st.notifications, st.notifications, lawyerId, times, day)
  {
    forall i | 0 <= i < |st.slots| ensures !AtTimes(st.slots[i], lawyerId, times, day) {
      assert st.slots[i].id !in ids;
    }
    SlotsKept(st.slots, lawyerId, times, day);
    AppointmentsKept(st.slots, st.appointments, lawyerId, times, day);
    NoticesKept(st.slots, st.appointments, st.notifications, lawyerId, times, day);
  }

  /** No slot targeted: every slot stays. */
  lemma SlotsKept(slots: SlotTable, lawyerId: string, times: seq<string>, day: Day)
    requires forall i :: 0 <= i < |slots| ==> !AtTimes(slots[i], lawyerId, times, day)
    ensures SlotsRemoved(slots, slots, lawyerId, times, day)
  {
    PrefixIsSubsequence(slots, |slots|);
    assert slots[..|slots|] == slots;
  }

  /** No slot targeted: every appointment stays. */
  lemma AppointmentsKept(slots: SlotTable, t: Appointments.Table, lawyerId: string, times: seq<string>, day: Day)
    requires forall i :: 0 <= i < |slots| ==> !AtTimes(slots[i], lawyerId, times, day)
    ensures AppointmentsRemoved(slots, t, t, lawyerId, times, day)
  {
    PrefixIsSubsequence(t, |t|);
    assert t[..|t|] == t;
    forall j | 0 <= j < |t| ensures !InTargetSlot(slots, t[j], lawyerId, times, day) {
    }
  }

  /** No slot targeted: no notice is sent. */
  lemma NoticesKept(slots: SlotTable, t: Appointments.Table, ns: seq<Notification>, lawyerId: string, times: seq<string>, day: Day)
    requires forall i :: 0 <= i < |slots| ==> !AtTimes(slots[i], lawyerId, times, day)
    ensures NoticesSent(slots, t, ns, ns, lawyerId, times, day)
  {
    assert ns[..|ns|] == ns;
    forall j | 0 <= j < |t| ensures !Targeted(slots, lawyerId, times, day)(t[j]) {
    }
  }

  /** The appointments left after the deletion. */
  lemma RemainingAppointments(st: State, ids: seq<string>, affected: Appointments.Table, remaining: Appointments.Table,
                              lawyerId: string, times: seq<string>, day: Day)
    requires forall x :: x in ids <==> exists i :: 0 <= i < |st.slots| && st.slots[i].id == x && AtTimes(st.slots[i], lawyerId, times, day)
    requires affected == Appointments.FindBySlotIds(st.appointments, ids)
    requires remaining == Appointments.DeleteMany(st.appointments, AppointmentIdsOf(affected))
    ensures AppointmentsRemoved(st.slots, st.appointments, remaining, lawyerId, times, day)
  {
    var aids := AppointmentIdsOf(affected);
    forall j | 0 <= j < |remaining|
      ensures !InTargetSlot(st.slots, remaining[j], lawyerId, times, day)
    {
      assert remaining[j].id !in aids;
      assert forall k :: 0 <= k < |affected| ==> affected[k].id == aids[k];
    }
    forall j | 0 <= j < |st.appointments| && UnsharedAppointment(st.slots, st.appointments, j, lawyerId, times, day)
      ensures st.appointments[j] in remaining
    {
      assert forall k :: 0 <= k < |affected| ==> affected[k].id == aids[k] && affected[k] in st.appointments;
    }
  }

  /** The slots left after the deletion. */
  lemma RemainingSlots(t: SlotTable, ids: seq<string>, r: SlotTable, lawyerId: string, times: seq<string>, day: Day)
    requires forall x :: x in ids <==> exists i :: 0 <= i < |t| && t[i].id == x && AtTimes(t[i], lawyerId, times, day)
    requires r == SlotStore.DeleteMany(t, ids)
    ensures SlotsRemoved(t, r, lawyerId, times, day)
  {
    forall i | 0 <= i < |r| ensures r[i] in t && !AtTimes(r[i], lawyerId, times, day) {
    }
    forall i | 0 <= i < |t| && UnsharedSlot(t, i, lawyerId, times, day) ensures t[i] in r {
      assert t[i].id !in ids;
    }
  }

  /** The notices added are one per affected appointment. */
  lemma NoticesAdded(st: State, affected: Appointments.Table, told: seq<Notification>, lawyerId: string, times: seq<string>,
                     day: Day, ids: seq<string>)
    requires forall x :: x in ids <==> exists i :: 0 <= i < |st.slots| && st.slots[i].id == x && AtTimes(st.slots[i], lawyerId, times, day)
    requires affected == Appointments.FindBySlotIds(st.appointments, ids)
    requires told == st.notifications + Notices(affected)
    ensures NoticesSent(st.slots, st.appointments, st.notifications, told, lawyerId, times, day)
  {
    assert told[..|st.notifications|] == st.notifications;
    NoticesOfAffected(st, affected, told, lawyerId, times, day, ids);
    AffectedNoticed(st, affected, told, lawyerId, times, day, ids);
    AffectedCount(st, affected, lawyerId, times, day, ids);
  }

  /** As many appointments are affected as are booked in targeted slots. */
  lemma AffectedCount(st: State, affected: Appointments.Table, lawyerId: string, times: seq<string>, day: Day, ids: seq<string>)
    requires forall x :: x in ids <==> exists i :: 0 <= i < |st.slots| && st.slots[i].id == x && AtTimes(st.slots[i], lawyerId, times, day)
    requires affected == Appointments.FindBySlotIds(st.appointments, ids)
    ensures |affected| == Count(st.appointments, Targeted(st.slots, lawyerId, times, day))
  {
    FilterSame(st.appointments, Appointments.InSlots(ids), Targeted(st.slots, lawyerId, times, day));
  }

  /** Each notice added is for an appointment in a targeted slot. */
  lemma NoticesOfAffected(st: State, affected: Appointments.Table, told: seq<Notification>, lawyerId: string, times: seq<string>,
                          day: Day, ids: seq<string>)
    requires forall x :: x in ids <==> exists i :: 0 <= i < |st.slots| && st.slots[i].id == x && AtTimes(st.slots[i], lawyerId, times, day)
    requires affected == Appointments.FindBySlotIds(st.appointments, ids)
    requires told == st.notifications + Notices(affected)
    ensures forall k :: |st.notifications| <= k < |told| ==> NoticeOfTarget(st.slots, st.appointments, told[k], lawyerId, times, day)
  {
    forall k | |st.notifications| <= k < |told|
      ensures NoticeOfTarget(st.slots, st.appointments, told[k], lawyerId, times, day)
    {
      var a := affected[k - |st.notifications|];
      assert told[k] == UnavailableNotice(a);
      assert a.slotId in ids && a in st.appointments;
      var j :| 0 <= j < |st.appointments| && st.appointments[j] == a;
      assert InTargetSlot(st.slots, st.appointments[j], lawyerId, times, day);
    }
  }

  /** Each appointment in a targeted slot has its notice among those added. */
  lemma AffectedNoticed(st: State, affected: Appointments.Table, told: seq<Notification>, lawyerId: string, times: seq<string>,
                        day: Day, ids: seq<string>)
    requires forall x :: x in ids <==> exists i :: 0 <= i < |st.slots| && st.slots[i].id == x && AtTimes(st.slots[i], lawyerId, times, day)
    requires affected == Appointments.FindBySlotIds(st.appointments, ids)
    requires told == st.notifications + Notices(affected)
    ensures forall j :: 0 <= j < |st.appointments| && InTargetSlot(st.slots, st.appointments[j], lawyerId, times, day) ==>
              UnavailableNotice(st.appointments[j]) in told[|st.notifications|..]
  {
    var added := Notices(affected);
    assert told[|st.notifications|..] == added;
    forall j | 0 <= j < |st.appointments| && InTargetSlot(st.slots, st.appointments[j], lawyerId, times, day)
      ensures UnavailableNotice(st.appointments[j]) in added
    {
      assert st.appointments[j].slotId in ids;
      var k :| 0 <= k < |affected| && affected[k] == st.appointments[j];
      assert added[k] == UnavailableNotice(st.appointments[j]);
    }
  }

  /** `deleteMany`: the lawyer id and every start time are checked before
      any lookup; then the cascade runs on the checked start times. */
  function DeleteMany(st: State, lawyerId: string, slots: seq<SlotInput>, day: Day, show: SlotInput -> string): (r: Step<()>)
    ensures r.result.Ok? <==>
              Validators.IsIdText(lawyerId) && forall i :: 0 <= i < |slots| ==> SlotRules.GoodStartTime(slots[i])
    ensures r.result.Err? ==> r.state == st && r.result.error.Custom? && r.result.error.status == BadRequest
    ensures !Validators.IsIdText(lawyerId) ==> r.result == Err(Custom(BadRequest, Validators.IdMessage))
    ensures r.result.Ok? ==>
              (forall k :: 0 <= k < |slots| ==> slots[k].startTime == Some(StartTimes(slots)[k])) &&
              r.state == Cascade(st, lawyerId, StartTimes(slots), day)
  {
    var checks := InputChecks(lawyerId, slots, show);
    match checks
    case Fail(e) => Step(st, Err(e))
    case Pass => Step(Cascade(st, lawyerId, StartTimes(slots), day), Ok(()))
  }

  /** A slot of that lawyer at one of the times on one of the days. */
  predicate Gone(s: Slot, lawyerId: string, times: seq<string>, days: seq<Day>) {
    s.day in days && AtTimes(s, lawyerId, times, s.day)
  }

  /** An appointment booked in a slot (of `slots`) that is gone. */
  predicate BookedGone(slots: SlotTable, a: Appointments.Appointment, lawyerId: string, times: seq<string>, days: seq<Day>) {
    exists i :: 0 <= i < |slots| && slots[i].id == a.slotId && Gone(slots[i], lawyerId, times, days)
  }

  /** No gone slot shares the id of the `i`-th slot. */
  predicate SharesNoGone(slots: SlotTable, i: int, lawyerId: string, times: seq<string>, days: seq<Day>)
    requires 0 <= i < |slots|
  {
    forall k :: 0 <= k < |slots| && Gone(slots[k], lawyerId, times, days) ==> slots[k].id != slots[i].id
  }

  /** The slots after deleting over several days: none is gone, each was
      there before, in order, and those sharing no id with a gone slot are
      all still there. */
  predicate SlotsGone(before: SlotTable, after: SlotTable, lawyerId: string, times: seq<string>, days: seq<Day>) {
    && (forall i :: 0 <= i < |after| ==> after[i] in before && !Gone(after[i], lawyerId, times, days))
    && (forall i :: 0 <= i < |before| && SharesNoGone(before, i, lawyerId, times, days) ==> before[i] in after)
    && IsSubsequence(after, before)
  }

  /** The appointments after deleting over several days: none was booked
      in a gone slot, and each was there before, in order. */
  predicate BookingsGone(slots: SlotTable, before: Appointments.Table, after: Appointments.Table,
                         lawyerId: string, times: seq<string>, days: seq<Day>) {
    && (forall j :: 0 <= j < |after| ==> after[j] in before && !BookedGone(slots, after[j], lawyerId, times, days))
    && IsSubsequence(after, before)
  }

  /** What deleting the times over several days does to the state: slots
      and appointments as above, notices only added, payments, sessions
      and refunds untouched. */
  predicate DeletedOnDays(before: State, after: State, lawyerId: string, times: seq<string>, days: seq<Day>) {
    && after.payments == before.payments && after.sections == before.sections && after.refunds == before.refunds
    && SlotsGone(before.slots, after.slots, lawyerId, times, days)
    && BookingsGone(before.slots, before.appointments, after.appointments, lawyerId, times, days)
    && |before.notifications| <= |after.notifications| && after.notifications[..|before.notifications|] == before.notifications
  }

  /** The loop of `deleteForAllDays`: `deleteMany` for each day in turn,
      with the times as its inputs, stopping at the first that fails. */
  function DeleteForDays(st: State, lawyerId: string, times: seq<string>, days: seq<Day>): (r: Step<()>)
    ensures r.result.Ok? <==>
              |days| == 0 || (Validators.IsIdText(lawyerId) && forall k :: 0 <= k < |times| ==> Validators.ParseTime(times[k]).Some?)
    ensures r.result.Err? ==> r.state == st && r.result.error.Custom? && r.result.error.status == BadRequest
    ensures |days| > 0 && !Validators.IsIdText(lawyerId) ==> r.result == Err(Custom(BadRequest, Validators.IdMessage))
    ensures r.result.Ok? ==> DeletedOnDays(st, r.state, lawyerId, times, days)
    decreases |days|
  {
    if |days| == 0 then
      NoDays(st, lawyerId, times);
      Step(st, Ok(()))
    else
      var inputs := AsInputs(times);
      AllGoodTimes(times);
      var w := DeleteMany(st, lawyerId, inputs, days[0], NoShow);
      if w.result.Err? then w
      else
        TimesOfInputs(times);
        assert w.state == Cascade(st, lawyerId, times, days[0]);
        var r := DeleteForDays(w.state, lawyerId, times, days[1..]);
        LaterDeletes(st, w.state, r.state, lawyerId, times, days);
        r
  }

  /** Deleting over no days deletes nothing. */
  lemma NoDays(st: State, lawyerId: string, times: seq<string>)
    ensures DeletedOnDays(st, st, lawyerId, times, [])
  {
    PrefixIsSubsequence(st.slots, |st.slots|);
    assert st.slots[..|st.slots|] == st.slots;
    PrefixIsSubsequence(st.appointments, |st.appointments|);
    assert st.appointments[..|st.appointments|] == st.appointments;
    assert st.notifications[..|st.notifications|] == st.notifications;
  }

  /** One turn of the loop of `deleteForAllDays`: the first day's cascade
      followed by the later days' deletions is a deletion over all the
      days. */
  lemma LaterDeletes(st: State, w: State, r: State, lawyerId: string, times: seq<string>, days: seq<Day>)
    requires |days| > 0
    requires w.payments == st.payments && w.sections == st.sections && w.refunds == st.refunds
    requires SlotsRemoved(st.slots, w.slots, lawyerId, times, days[0])
    requires AppointmentsRemoved(st.slots, st.appointments, w.appointments, lawyerId, times, days[0])
    requires NoticesSent(st.slots, st.appointments, st.notifications, w.notifications, lawyerId, times, days[0])
    requires DeletedOnDays(w, r, lawyerId, times, days[1..])
    ensures DeletedOnDays(st, r, lawyerId, times, days)
  {
    LaterSlotDeletes(st.slots, w.slots, r.slots, lawyerId, times, days);
    LaterBookingDeletes(st.slots, w.slots, st.appointments, w.appointments, r.appointments, lawyerId, times, days);
    PrefixOfPrefix(st.notifications, w.notifications, r.notifications);
  }

  /** A prefix of a prefix is a prefix. */
  lemma PrefixOfPrefix<T>(a: seq<T>, b: seq<T>, c: seq<T>)
    requires |a| <= |b| && b[..|a|] == a
    requires |b| <= |c| && c[..|b|] == b
    ensures |a| <= |c| && c[..|a|] == a
  {
    assert c[..|a|] == c[..|b|][..|a|];
  }

  /** The slot half of `LaterDeletes`. */
  lemma LaterSlotDeletes(a: SlotTable, b: SlotTable, c: SlotTable, lawyerId: string, times: seq<string>, days: seq<Day>)
    requires |days| > 0
    requires SlotsRemoved(a, b, lawyerId, times, days[0])
    requires SlotsGone(b, c, lawyerId, times, days[1..])
    ensures SlotsGone(a, c, lawyerId, times, days)
  {
    forall i | 0 <= i < |c| ensures c[i] in a && !Gone(c[i], lawyerId, times, days) {
      var m :| 0 <= m < |b| && b[m] == c[i];
      if c[i].day != days[0] {
        assert c[i].day in days ==> c[i].day in days[1..];
      }
    }
    forall i | 0 <= i < |a| && SharesNoGone(a, i, lawyerId, times, days) ensures a[i] in c {
      assert UnsharedSlot(a, i, lawyerId, times, days[0]);
      var m :| 0 <= m < |b| && b[m] == a[i];
      assert SharesNoGone(b, m, lawyerId, times, days[1..]) by {
        forall k | 0 <= k < |b| && Gone(b[k], lawyerId, times, days[1..]) ensures b[k].id != b[m].id {
          var n :| 0 <= n < |a| && a[n] == b[k];
          assert Gone(a[n], lawyerId, times, days);
        }
      }
    }
    SubsequenceTransitive(c, b, a);
  }

  /** The appointment half of `LaterDeletes`. */
  lemma LaterBookingDeletes(slotsA: SlotTable, slotsB: SlotTable, a: Appointments.Table, b: Appointments.Table,
                            c: Appointments.Table, lawyerId: string, times: seq<string>, days: seq<Day>)
    requires |days| > 0
    requires SlotsRemoved(slotsA, slotsB, lawyerId, times, days[0])
    requires AppointmentsRemoved(slotsA, a, b, lawyerId, times, days[0])
    requires BookingsGone(slotsB, b, c, lawyerId, times, days[1..])
    ensures BookingsGone(slotsA, a, c, lawyerId, times, days)
  {
    forall j | 0 <= j < |c| ensures c[j] in a && !BookedGone(slotsA, c[j], lawyerId, times, days) {
      var x := c[j];
      var m :| 0 <= m < |b| && b[m] == x;
      assert !InTargetSlot(slotsA, x, lawyerId, times, days[0]);
    }
    SubsequenceTransitive(c, b, a);
  }

  /** `deleteForAllDays`: every time is checked first (format, then
      length); then each day of the week, Sunday first, loses the
      lawyer's slots at those times, with the cascade of `deleteMany`. */
  function DeleteForAllDays(st: State, lawyerId: string, times: seq<string>): (r: Step<()>)
    ensures (exists k :: 0 <= k < |times| && Validators.ParseTime(times[k]).None?) ==>
              r == Step(st, Err(Custom(BadRequest, Validators.TimeMessage)))
    ensures (forall k :: 0 <= k < |times| ==> Validators.ParseTime(times[k]).Some?) && !Validators.IsIdText(lawyerId) ==>
              r == Step(st, Err(Custom(BadRequest, Validators.IdMessage)))
    ensures r.result.Ok? <==>
              Validators.IsIdText(lawyerId) && forall k :: 0 <= k < |times| ==> Validators.ParseTime(times[k]).Some?
    ensures r.result.Ok? ==> DeletedOnDays(st, r.state, lawyerId, times, AllDays)
    ensures r.result.Ok? ==> forall i :: 0 <= i < |r.state.slots| && r.state.slots[i].lawyerId == lawyerId ==>
              r.state.slots[i].startTime.None? || r.state.slots[i].startTime.value !in times
  {
    match CheckTimes(times)
    case Fail(e) => Step(st, Err(e))
    case Pass =>
      var r := DeleteForDays(st, lawyerId, times, AllDays);
      WeekCleared(st, r, lawyerId, times);
      r
  }

  /** Over the whole week, no slot of the lawyer at one of the times is
      left, whatever its day. */
  lemma WeekCleared(st: State, r: Step<()>, lawyerId: string, times: seq<string>)
    requires r.result.Ok? ==> DeletedOnDays(st, r.state, lawyerId, times, AllDays)
    ensures r.result.Ok? ==> forall i :: 0 <= i < |r.state.slots| && r.state.slots[i].lawyerId == lawyerId ==>
              r.state.slots[i].startTime.None? || r.state.slots[i].startTime.value !in times
  {
    DaysDistinct();
    var after := r.state.slots;
    forall i | 0 <= i < |after| && after[i].lawyerId == lawyerId && r.result.Ok?
      ensures after[i].startTime.None? || after[i].startTime.value !in times
    {
      assert !Gone(after[i], lawyerId, times, AllDays);
    }
  }

  // ---------------------------------------------------------------------
  // Reading slots.

  /** `getAllSlots`: the id must be an id; then all of the lawyer's
      slots. */
  function GetAllSlots(t: SlotTable, lawyerId: string): (r: Result<SlotTable>)
    ensures r.Err? <==> !Validators.IsIdText(lawyerId)
    ensures r.Err? ==> r.error == Custom(BadRequest, Validators.IdMessage)
    ensures r.Ok? ==> forall i :: 0 <= i < |r.value| ==> r.value[i] in t && r.value[i].lawyerId == lawyerId
    ensures r.Ok? ==> forall i :: 0 <= i < |t| && t[i].lawyerId == lawyerId ==> t[i] in r.value
  {
    match Validators.ValidateIdFormat(lawyerId)
    case Fail(e) => Err(e)
    case Pass => Ok(FindMany(t, lawyerId))
  }

  /** The day a string value of the enumeration names. */
  function ParseDay(text: string): (r: Option<Day>)
    ensures r.Some? <==> text in DayNames
    ensures r.Some? ==> DayName(r.value) == text
  {
    if text == "Sunday" then Some(Sunday)
    else if text == "Monday" then Some(Monday)
    else if text == "Tuesday" then Some(Tuesday)
    else if text == "Wednesday" then Some(Wednesday)
    else if text == "Thursday" then Some(Thursday)
    else if text == "Friday" then Some(Friday)
    else if text == "Saturday" then Some(Saturday)
    else None
  }

  /** Every day's name reads back as that day. */
  lemma ParseDayName(d: Day)
    ensures ParseDay(DayName(d)) == Some(d)
  {
    DaysDistinct();
  }

  /** `getSlotsByDay`: the day must be one of the enumeration's values
      (checked first), then the id an id; then the lawyer's slots on that
      day, booked or not. */
  function GetSlotsByDay(t: SlotTable, lawyerId: string, day: string): (r: Result<SlotTable>)
    ensures r.Ok? <==> day in DayNames && Validators.IsIdText(lawyerId)
    ensures day !in DayNames ==> r == Err(Custom(BadRequest, Validators.EnumMessage(DayNames)))
    ensures day in DayNames && !Validators.IsIdText(lawyerId) ==> r == Err(Custom(BadRequest, Validators.IdMessage))
    ensures r.Ok? ==> forall i :: 0 <= i < |r.value| ==>
              r.value[i] in t && r.value[i].lawyerId == lawyerId && DayName(r.value[i].day) == day
    ensures r.Ok? ==> forall i :: 0 <= i < |t| && t[i].lawyerId == lawyerId && DayName(t[i].day) == day ==> t[i] in r.value
  {
    var checks := Then(Validators.ValidateEnum(day, DayNames), Validators.ValidateIdFormat(lawyerId));
    match checks
    case Fail(e) => Err(e)
    case Pass =>
      var d := ParseDay(day).value;
      assert forall e: Day :: DayName(e) == day ==> e == d by {
        forall e: Day | DayName(e) == day ensures e == d {
          ParseDayName(e);
        }
      }
      Ok(FindManyByDay(t, lawyerId, d, None))
  }

  /** The hour on a 24-hour clock that `parseTimeStringToDate` sets: a PM
      hour below 12 gains 12, an AM hour of 12 becomes 0, and every other
      hour is kept as written. */
  function Hour24(c: Validators.ClockText): nat {
    if c.meridiem == Validators.PM && c.hour < 12 then c.hour + 12
    else if c.meridiem == Validators.AM && c.hour == 12 then 0
    else c.hour
  }

  /** The minute of the day a start time stands for. */
  function Minutes(c: Validators.ClockText): nat {
    Hour24(c) * 60 + c.minute
  }

  /** A reading on a 12-hour clock: hour 1 to 12. */
  predicate TwelveHour(c: Validators.ClockText) {
    1 <= c.hour <= 12 && c.minute < 60
  }

  /** The 12-hour reading of a minute of the day: hour 12 for the first
      hour of each half, AM before noon. */
  function ReadingOf(m: nat): (c: Validators.ClockText)
    requires m < 24 * 60
    ensures TwelveHour(c)
  {
    var h := m / 60;
    Validators.ClockText(if h % 12 == 0 then 12 else h % 12, m % 60, if h < 12 then Validators.AM else Validators.PM)
  }

  /** On 12-hour readings the conversion is a bijection onto the minutes
      of the day: each reading is the reading of its minutes, and each
      minute is the minutes of its reading. */
  lemma ClockBijection(c: Validators.ClockText, m: nat)
    requires m < 24 * 60
    ensures Minutes(ReadingOf(m)) == m
    ensures TwelveHour(c) ==> Minutes(c) < 24 * 60 && ReadingOf(Minutes(c)) == c
  {
  }

  /** The time format also admits hours 00 and 13 to 23, and those read as
      the same minute as a 12-hour reading: "13:00 PM" is "01:00 PM",
      "00:30 AM" is "12:30 AM", and "13:00 AM" is 1 PM too. */
  lemma ClockCollisions()
    ensures Minutes(Validators.ParseTime("13:00 PM").value) == Minutes(Validators.ParseTime("01:00 PM").value) == 13 * 60
    ensures Minutes(Validators.ParseTime("00:30 AM").value) == Minutes(Validators.ParseTime("12:30 AM").value) == 30
    ensures Minutes(Validators.ParseTime("13:00 AM").value) == 13 * 60
  {
    assert Validators.ParseTime("13:00 PM") == Some(Validators.ClockText(13, 0, Validators.PM));
    assert Validators.ParseTime("01:00 PM") == Some(Validators.ClockText(1, 0, Validators.PM));
    assert Validators.ParseTime("00:30 AM") == Some(Validators.ClockText(0, 30, Validators.AM));
    assert Validators.ParseTime("12:30 AM") == Some(Validators.ClockText(12, 30, Validators.AM));
    assert Validators.ParseTime("13:00 AM") == Some(Validators.ClockText(13, 0, Validators.AM));
  }

  /** The sort key of a slot: the minute of the day of its start time (a
      slot without a well-formed one is never sorted; see
      `GetSlotsByDate`). */
  function SlotMinutes(s: Slot): int {
    if WellTimed(s) then Minutes(Validators.ParseTime(s.startTime.value).value) else 0
  }

  /** One hour, in milliseconds. */
  const HourMillis: int := 60 * 60000

  /** Whether a slot of today starts strictly later than an hour from now,
      with `now` in milliseconds since today's midnight. */
  predicate Later(s: Slot, now: int) {
    SlotMinutes(s) * 60000 > now + HourMillis
  }

  /** What `getSlotsByDate` needs of the world: the ISO-date check, the
      store's conversion of a date to a time, the date's day number (UTC),
      today's day number and the time of day now. */
  datatype DateEnv = DateEnv(
    isIsoDate: string -> bool,
    toTime: string -> int,
    epochDay: string -> int,
    today: int,
    now: int)

  /** The slot has an appointment of that lawyer dated on or after the
      date. */
  predicate BookedFrom(t: Appointments.Table, slotId: string, lawyerId: string, date: string, toTime: string -> int) {
    exists i :: 0 <= i < |t| && t[i].slotId == slotId && t[i].lawyerId == lawyerId &&
                t[i].appointmentDate >= toTime(Appointments.DateOnly(date))
  }

  /** A slot shown for the date: the lawyer's, on the date's weekday, not
      booked from that date on, and, when the date is today, starting more
      than an hour from now. */
  predicate Shown(s: Slot, t: Appointments.Table, lawyerId: string, date: string, env: DateEnv) {
    && s.lawyerId == lawyerId && s.day == DayOfDate(env.epochDay(date))
    && !BookedFrom(t, s.id, lawyerId, date, env.toTime)
    && (env.epochDay(date) == env.today ==> Later(s, env.now))
  }

  /** The slot ids of appointments, in order. */
  function SlotIdsOf(t: Appointments.Table): (ids: seq<string>)
    ensures |ids| == |t| && forall k :: 0 <= k < |t| ==> ids[k] == t[k].slotId
  {
    seq(|t|, k requires 0 <= k < |t| => t[k].slotId)
  }

  /** `getSlotsByDate`: the id and the date are checked; the slots of the
      lawyer on the date's weekday are fetched, less those booked from that
      date on; they are sorted by start time, earliest first, and on today's
      date only those more than an hour away are kept. The stored slots of
      the lawyer have well-formed start times, as every slot use case
      checks before writing. */
  function GetSlotsByDate(t: Appointments.Table, slots: SlotTable, lawyerId: string, date: string, env: DateEnv)
    : (r: Result<SlotTable>)
    requires forall i :: 0 <= i < |slots| && slots[i].lawyerId == lawyerId ==> WellTimed(slots[i])
    ensures r.Err? <==> !(Validators.IsIdText(lawyerId) && env.isIsoDate(date))
    ensures !Validators.IsIdText(lawyerId) ==> r == Err(Custom(BadRequest, Validators.IdMessage))
    ensures Validators.IsIdText(lawyerId) && !env.isIsoDate(date) ==> r == Err(Custom(BadRequest, Validators.DateMessage))
    ensures r.Ok? ==> Ascending(r.value, SlotMinutes)
    ensures r.Ok? ==> forall x :: multiset(r.value)[x] == if Shown(x, t, lawyerId, date, env) then multiset(slots)[x] else 0
  {
    var checks := Then(Validators.ValidateIdFormat(lawyerId), Validators.ValidateDateFormat(date, env.isIsoDate));
    match checks
    case Fail(e) => Err(e)
    case Pass =>
      var booked := Appointments.FindManyByDateAndLawyerId(t, date, lawyerId, env.toTime);
      var ids := SlotIdsOf(booked);
      var day := DayOfDate(env.epochDay(date));
      var found := FindManyNotInSlotIds(slots, lawyerId, day, ids);
      var sorted := SortBy(found, SlotMinutes);
      var isToday := env.epochDay(date) == env.today;
      var keep := (s: Slot) => !isToday || Later(s, env.now);
      FilterAscending(sorted, keep, SlotMinutes);
      FilterMultiset(sorted, keep);
      BookedIds(t, booked, ids, lawyerId, date, env.toTime);
      Ok(Filter(sorted, keep))
  }

  /** The ids excluded are exactly those of slots booked from the date
      on. */
  lemma BookedIds(t: Appointments.Table, booked: Appointments.Table, ids: seq<string>, lawyerId: string, date: string,
                  toTime: string -> int)
    requires booked == Appointments.FindManyByDateAndLawyerId(t, date, lawyerId, toTime)
    requires ids == SlotIdsOf(booked)
    ensures forall x :: x in ids <==> BookedFrom(t, x, lawyerId, date, toTime)
  {
    forall x ensures x in ids <==> BookedFrom(t, x, lawyerId, date, toTime) {
      if x in ids {
        var k :| 0 <= k < |ids| && ids[k] == x;
        assert booked[k] in t;
      }
      if BookedFrom(t, x, lawyerId, date, toTime) {
        var i :| 0 <= i < |t| && t[i].slotId == x && t[i].lawyerId == lawyerId &&
                 t[i].appointmentDate >= toTime(Appointments.DateOnly(date));
        var k :| 0 <= k < |booked| && booked[k] == t[i];
        assert ids[k] == x;
      }
    }
  }
}
