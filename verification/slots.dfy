/** Slot entities: the weekly schedule a lawyer offers.

    The `Days` enumeration is not part of this model's sources; the lookup of
    a day by `getUTCDay()` index fixes its order, Sunday first, and its string
    values are taken to be the English day names. */
module Slots {

  import opened Outcome

  datatype Day = Sunday | Monday | Tuesday | Wednesday | Thursday | Friday | Saturday

  /** `Object.values(Days)`, in declaration order. */
  const AllDays: seq<Day> := [Sunday, Monday, Tuesday, Wednesday, Thursday, Friday, Saturday]

  function DayName(d: Day): string {
    match d
    case Sunday => "Sunday"
    case Monday => "Monday"
    case Tuesday => "Tuesday"
    case Wednesday => "Wednesday"
    case Thursday => "Thursday"
    case Friday => "Friday"
    case Saturday => "Saturday"
  }

  /** The string values of the enumeration, in order. */
  const DayNames: seq<string> := ["Sunday", "Monday", "Tuesday", "Wednesday", "Thursday", "Friday", "Saturday"]

  /** `getUTCDay()` of a date given as days since 1970-01-01, a Thursday:
      0 is Sunday. Dafny's `%` is never negative, like the weekday of a date
      before 1970. */
  function UtcWeekday(epochDay: int): (w: nat)
    ensures w < 7
  {
    (epochDay + 4) % 7
  }

  /** `getDayFromDate`: the enumeration value at the date's UTC weekday index. */
  function DayOfDate(epochDay: int): (d: Day)
    ensures d == AllDays[UtcWeekday(epochDay)]
  {
    AllDays[UtcWeekday(epochDay)]
  }

  /** A stored slot. `startTime` and `endTime` are the `HH:MM AM/PM` texts
      the client sends; `booked` is the slot's `status === "booked"`. */
  datatype Slot = Slot(
    id: string,
    lawyerId: string,
    startTime: Option<string>,
    endTime: Option<string>,
    day: Day,
    booked: bool)

  /** A slot as a request body describes it: any of its fields may be absent. */
  datatype SlotInput = SlotInput(startTime: Option<string>, endTime: Option<string>)

  /** The position of a day in the enumeration, its `getUTCDay()` number. */
  function DayIndex(d: Day): (i: nat)
    ensures i < 7 && AllDays[i] == d
  {
    match d
    case Sunday => 0
    case Monday => 1
    case Tuesday => 2
    case Wednesday => 3
    case Thursday => 4
    case Friday => 5
    case Saturday => 6
  }

  /** Every day occurs exactly once in the enumeration, and every day's
      name is one of its string values. */
  lemma DaysDistinct()
    ensures forall i, j :: 0 <= i < j < 7 ==> AllDays[i] != AllDays[j]
    ensures forall d: Day :: d in AllDays
    ensures forall d: Day :: DayName(d) in DayNames
    ensures forall i :: 0 <= i < 7 ==> DayNames[i] == DayName(AllDays[i])
  {
    forall d: Day ensures d in AllDays && DayName(d) in DayNames {
      var i := DayIndex(d);
      assert DayNames[i] == DayName(d);
    }
  }

  /** The weekday repeats every seven days. */
  lemma WeekdayPeriodic(epochDay: int)
    ensures UtcWeekday(epochDay + 7) == UtcWeekday(epochDay)
    ensures DayOfDate(epochDay + 7) == DayOfDate(epochDay)
  {
  }

  /** 1970-01-01 was a Thursday and 1970-01-04 a Sunday. */
  lemma EpochWeekdays()
    ensures DayOfDate(0) == Thursday
    ensures DayOfDate(3) == Sunday
    ensures DayOfDate(-1) == Wednesday
  {
  }
}
