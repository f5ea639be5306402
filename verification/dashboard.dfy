/** The admin dashboard's figures (`DashboardUseCase`): clients by
    gender, users and appointments per month, appointments per status.

    Times are epoch milliseconds. The calendar (`startOfMonth` and
    `endOfMonth` in the server's time zone) is a parameter: `cal(y, m)` is
    the first millisecond of month `m` (0 for January) of year `y`, and
    `cal(y, 12)` is the first of the next January. */
module Dashboard {

  import opened Outcome
  import Appointments
  import ClientStore
  import LawyerStore

  /** `Object.values(Months)`. */
  const MonthNames: seq<string> :=
    ["January", "February", "March", "April", "May", "June", "July", "August", "September", "October", "November", "December"]

  /** How many years before and after the current one the monthly figures
      span. */
  const YearsBefore: int := 2
  const YearsAfter: int := 5

  // ---------------------------------------------------------------------
  // Clients by gender.

  /** One row of `findClientGenders`: a stored gender (or "others" when
      none is stored) and how many clients have it. */
  datatype GenderCount = GenderCount(gender: string, count: int)

  /** `ClientGenderStatistics`. */
  datatype GenderTally = GenderTally(male: int, female: int)

  /** The genders the client schema admits, and the label of a missing one. */
  const StoredGenders: seq<string> := ClientStore.Genders + ["others"]

  /** Row `k` is the last row for that gender. */
  predicate LastWith(rows: seq<GenderCount>, k: int, gender: string) {
    0 <= k < |rows| && rows[k].gender == gender && forall j :: k < j < |rows| ==> rows[j].gender != gender
  }

  /** The `forEach` over the rows: a row whose gender is exactly
      `maleText` sets the male count, one exactly `femaleText` the female
      count; a later row overwrites an earlier one and a gender with no row
      keeps the starting count. */
  function Tally(acc: GenderTally, rows: seq<GenderCount>, maleText: string, femaleText: string): (r: GenderTally)
    requires maleText != femaleText
    ensures (forall k :: 0 <= k < |rows| ==> rows[k].gender != maleText) ==> r.male == acc.male
    ensures (forall k :: 0 <= k < |rows| ==> rows[k].gender != femaleText) ==> r.female == acc.female
    ensures (exists k :: 0 <= k < |rows| && rows[k].gender == maleText) ==>
              exists k :: LastWith(rows, k, maleText) && r.male == rows[k].count
    ensures (exists k :: 0 <= k < |rows| && rows[k].gender == femaleText) ==>
              exists k :: LastWith(rows, k, femaleText) && r.female == rows[k].count
    decreases |rows|
  {
    if |rows| == 0 then acc
    else
      var row := rows[0];
      var next := if row.gender == maleText then acc.(male := row.count)
                  else if row.gender == femaleText then acc.(female := row.count)
                  else acc;
      var r := Tally(next, rows[1..], maleText, femaleText);
      TallyShift(rows, maleText, r.male, next.male, acc.male);
      TallyShift(rows, femaleText, r.female, next.female, acc.female);
      r
  }

  /** What the rest of the rows leave for one gender is what all the rows
      leave. */
  lemma TallyShift(rows: seq<GenderCount>, gender: string, result: int, afterFirst: int, start: int)
    requires |rows| > 0
    requires afterFirst == if rows[0].gender == gender then rows[0].count else start
    requires (forall k :: 0 <= k < |rows[1..]| ==> rows[1..][k].gender != gender) ==> result == afterFirst
    requires (exists k :: 0 <= k < |rows[1..]| && rows[1..][k].gender == gender) ==>
               exists k :: LastWith(rows[1..], k, gender) && result == rows[1..][k].count
    ensures (forall k :: 0 <= k < |rows| ==> rows[k].gender != gender) ==> result == start
    ensures (exists k :: 0 <= k < |rows| && rows[k].gender == gender) ==>
              exists k :: LastWith(rows, k, gender) && result == rows[k].count
  {
    var tail := rows[1..];
    if exists k :: 0 <= k < |tail| && tail[k].gender == gender {
      var k :| LastWith(tail, k, gender) && result == tail[k].count;
      assert LastWith(rows, k + 1, gender);
    } else if rows[0].gender == gender {
      assert LastWith(rows, 0, gender);
    } else {
      forall k | 0 <= k < |rows| ensures rows[k].gender != gender {
        if k > 0 {
          assert rows[k] == tail[k - 1];
        }
      }
    }
  }

  /** `getClientGenderStatistics` as written: it looks for "male" and
      "female". */
  function GenderStatisticsAsWritten(rows: seq<GenderCount>): (r: GenderTally)
    ensures (forall k :: 0 <= k < |rows| ==> rows[k].gender != "male") ==> r.male == 0
    ensures (forall k :: 0 <= k < |rows| ==> rows[k].gender != "female") ==> r.female == 0
  {
    Tally(GenderTally(0, 0), rows, "male", "female")
  }

  /** The schema stores "Male", "Female" or "Other", so the figures as
      written are always 0 and 0. */
  lemma GenderFiguresAlwaysZero(rows: seq<GenderCount>)
    requires forall k :: 0 <= k < |rows| ==> rows[k].gender in StoredGenders
    ensures GenderStatisticsAsWritten(rows) == GenderTally(0, 0)
  {
  }

  /** `getClientGenderStatistics` with the schema's spelling. */
  function GenderStatistics(rows: seq<GenderCount>): (r: GenderTally)
    ensures (forall k :: 0 <= k < |rows| ==> rows[k].gender != "Male") ==> r.male == 0
    ensures (forall k :: 0 <= k < |rows| ==> rows[k].gender != "Female") ==> r.female == 0
    ensures (exists k :: 0 <= k < |rows| && rows[k].gender == "Male") ==>
              exists k :: LastWith(rows, k, "Male") && r.male == rows[k].count
    ensures (exists k :: 0 <= k < |rows| && rows[k].gender == "Female") ==>
              exists k :: LastWith(rows, k, "Female") && r.female == rows[k].count
  {
    Tally(GenderTally(0, 0), rows, "Male", "Female")
  }

  /** A grouping has one row per gender, so each figure is that row's
      count. */
  lemma GenderFiguresRead(rows: seq<GenderCount>, male: nat, female: nat)
    requires forall i, j :: 0 <= i < j < |rows| ==> rows[i].gender != rows[j].gender
    requires GenderCount("Male", male) in rows && GenderCount("Female", female) in rows
    ensures GenderStatistics(rows) == GenderTally(male, female)
  {
    var r := GenderStatistics(rows);
    var i :| 0 <= i < |rows| && rows[i] == GenderCount("Male", male);
    var k :| LastWith(rows, k, "Male") && r.male == rows[k].count;
    assert k == i;
    var j :| 0 <= j < |rows| && rows[j] == GenderCount("Female", female);
    var l :| LastWith(rows, l, "Female") && r.female == rows[l].count;
    assert l == j;
  }

  // ---------------------------------------------------------------------
  // Counting by creation time.

  /** `countDocuments({ createdAt: { $gte: lo, $lte: hi } })` and the
      like: how many records were created from `lo` to `hi`, both
      included. */
  function RangeCount<T>(s: seq<T>, key: T -> int, lo: int, hi: int): nat
    decreases |s|
  {
    if |s| == 0 then 0
    else (if lo <= key(s[0]) <= hi then 1 else 0) + RangeCount(s[1..], key, lo, hi)
  }

  /** The appointment count by range is this count over `createdAt`. */
  lemma {:induction false} RangeCountOfAppointments(t: Appointments.Table, lo: int, hi: int)
    ensures RangeCount(t, Appointments.CreatedAt, lo, hi) == Appointments.GetCountByRange(t, lo, hi)
    decreases |t|
  {
    if |t| > 0 {
      RangeCountOfAppointments(t[1..], lo, hi);
    }
  }

  /** An empty range counts nothing. */
  lemma {:induction false} EmptyRange<T>(s: seq<T>, key: T -> int, lo: int, hi: int)
    requires hi < lo
    ensures RangeCount(s, key, lo, hi) == 0
    decreases |s|
  {
    if |s| > 0 {
      EmptyRange(s[1..], key, lo, hi);
    }
  }

  /** Adjacent ranges add up: `[lo, mid]` and `[mid + 1, hi]` split
      `[lo, hi]`. */
  lemma {:induction false} RangeSplit<T>(s: seq<T>, key: T -> int, lo: int, mid: int, hi: int)
    requires lo - 1 <= mid <= hi
    ensures RangeCount(s, key, lo, mid) + RangeCount(s, key, mid + 1, hi) == RangeCount(s, key, lo, hi)
    decreases |s|
  {
    if |s| > 0 {
      RangeSplit(s[1..], key, lo, mid, hi);
    }
  }

  // ---------------------------------------------------------------------
  // Figures per month.

  /** The calendar's months follow one another: each starts after the one
      before, and December ends where the next January starts. */
  ghost predicate MonthsInOrder(cal: (int, int) -> int) {
    && (forall y, m :: 0 <= m < 12 ==> cal(y, m) < cal(y, m + 1))
    && (forall y :: cal(y, 12) == cal(y + 1, 0))
  }

  /** The records created in month `m` of year `y`: from `startOfMonth` to
      `endOfMonth`, the last millisecond before the next month. */
  function MonthCount<T>(s: seq<T>, key: T -> int, cal: (int, int) -> int, y: int, m: int): nat {
    RangeCount(s, key, cal(y, m), cal(y, m + 1) - 1)
  }

  /** Month `m` summed over the years `y0` to `y1`. */
  function YearsSum<T>(s: seq<T>, key: T -> int, cal: (int, int) -> int, m: int, y0: int, y1: int): nat
    decreases y1 - y0
  {
    if y1 < y0 then 0 else YearsSum(s, key, cal, m, y0, y1 - 1) + MonthCount(s, key, cal, y1, m)
  }

  /** The statistics map's values: for each month in order, its count summed
      over the years from two before `currentYear` to five after. */
  function MonthTotals<T>(s: seq<T>, key: T -> int, cal: (int, int) -> int, currentYear: int): (r: seq<nat>)
    ensures |r| == 12
    ensures forall m :: 0 <= m < 12 ==> r[m] == YearsSum(s, key, cal, m, currentYear - YearsBefore, currentYear + YearsAfter)
  {
    seq(12, m requires 0 <= m < 12 => YearsSum(s, key, cal, m, currentYear - YearsBefore, currentYear + YearsAfter))
  }

  /** The sum of the figures. */
  function Sum(xs: seq<nat>): nat
    decreases |xs|
  {
    if |xs| == 0 then 0 else Sum(xs[..|xs| - 1]) + xs[|xs| - 1]
  }

  /** The first `k` months of year `y` summed. */
  function RowSum<T>(s: seq<T>, key: T -> int, cal: (int, int) -> int, y: int, k: nat): nat
    decreases k
  {
    if k == 0 then 0 else RowSum(s, key, cal, y, k - 1) + MonthCount(s, key, cal, y, k - 1)
  }

  /** The first `k` months of a year cover that year from its start to
      the start of month `k`. */
  lemma {:induction false} RowCoversMonths<T>(s: seq<T>, key: T -> int, cal: (int, int) -> int, y: int, k: nat)
    requires MonthsInOrder(cal) && k <= 12
    ensures cal(y, 0) <= cal(y, k)
    ensures RowSum(s, key, cal, y, k) == RangeCount(s, key, cal(y, 0), cal(y, k) - 1)
    decreases k
  {
    if k == 0 {
      EmptyRange(s, key, cal(y, 0), cal(y, 0) - 1);
    } else {
      RowCoversMonths(s, key, cal, y, k - 1);
      assert cal(y, k - 1) < cal(y, k);
      RangeSplit(s, key, cal(y, 0), cal(y, k - 1) - 1, cal(y, k) - 1);
    }
  }

  /** The first `k` months summed over the years `y0` to `y1`, month by
      month. */
  function ByMonths<T>(s: seq<T>, key: T -> int, cal: (int, int) -> int, y0: int, y1: int, k: nat): nat
    decreases k
  {
    if k == 0 then 0 else ByMonths(s, key, cal, y0, y1, k - 1) + YearsSum(s, key, cal, k - 1, y0, y1)
  }

  /** The same sum, year by year. */
  function ByYears<T>(s: seq<T>, key: T -> int, cal: (int, int) -> int, y0: int, y1: int, k: nat): nat
    decreases y1 - y0
  {
    if y1 < y0 then 0 else ByYears(s, key, cal, y0, y1 - 1, k) + RowSum(s, key, cal, y1, k)
  }

  /** Adding a month to every year adds that month's sum over the years. */
  lemma {:induction false} ByYearsStep<T>(s: seq<T>, key: T -> int, cal: (int, int) -> int, y0: int, y1: int, k: nat)
    ensures ByYears(s, key, cal, y0, y1, k + 1) == ByYears(s, key, cal, y0, y1, k) + YearsSum(s, key, cal, k, y0, y1)
    decreases y1 - y0
  {
    if y1 >= y0 {
      ByYearsStep(s, key, cal, y0, y1 - 1, k);
    }
  }

  /** Summing month by month or year by year gives the same total. */
  lemma {:induction false} GridSums<T>(s: seq<T>, key: T -> int, cal: (int, int) -> int, y0: int, y1: int, k: nat)
    ensures ByMonths(s, key, cal, y0, y1, k) == ByYears(s, key, cal, y0, y1, k)
    decreases k
  {
    if k == 0 {
      ByYearsZero(s, key, cal, y0, y1);
    } else {
      GridSums(s, key, cal, y0, y1, k - 1);
      ByYearsStep(s, key, cal, y0, y1, k - 1);
    }
  }

  /** No months summed over any years is 0. */
  lemma {:induction false} ByYearsZero<T>(s: seq<T>, key: T -> int, cal: (int, int) -> int, y0: int, y1: int)
    ensures ByYears(s, key, cal, y0, y1, 0) == 0
    decreases y1 - y0
  {
    if y1 >= y0 {
      ByYearsZero(s, key, cal, y0, y1 - 1);
    }
  }

  /** Whole years `y0` to `y1` cover the span from the first January to the
      last December. */
  lemma {:induction false} YearsCoverSpan<T>(s: seq<T>, key: T -> int, cal: (int, int) -> int, y0: int, y1: int)
    requires MonthsInOrder(cal) && y0 - 1 <= y1
    ensures cal(y0, 0) <= cal(y1 + 1, 0)
    ensures ByYears(s, key, cal, y0, y1, 12) == RangeCount(s, key, cal(y0, 0), cal(y1 + 1, 0) - 1)
    decreases y1 - y0
  {
    if y1 < y0 {
      EmptyRange(s, key, cal(y0, 0), cal(y0, 0) - 1);
    } else {
      YearsCoverSpan(s, key, cal, y0, y1 - 1);
      RowCoversMonths(s, key, cal, y1, 12);
      var first, last, next := cal(y0, 0), cal(y1, 0), cal(y1 + 1, 0);
      assert cal(y1, 12) == next;
      assert ByYears(s, key, cal, y0, y1, 12) == ByYears(s, key, cal, y0, y1 - 1, 12) + RowSum(s, key, cal, y1, 12);
      RangeSplit(s, key, first, last - 1, next - 1);
    }
  }

  /** The first `k` monthly figures add up month by month. */
  lemma {:induction false} SumOfTotals<T>(s: seq<T>, key: T -> int, cal: (int, int) -> int, currentYear: int, k: nat)
    requires k <= 12
    ensures Sum(MonthTotals(s, key, cal, currentYear)[..k]) ==
            ByMonths(s, key, cal, currentYear - YearsBefore, currentYear + YearsAfter, k)
    decreases k
  {
    if k > 0 {
      var r := MonthTotals(s, key, cal, currentYear);
      assert r[..k][..k - 1] == r[..k - 1];
      SumOfTotals(s, key, cal, currentYear, k - 1);
    }
  }

  /** The monthly figures count every record created within the eight
      years exactly once: their sum is the count over the whole span. */
  lemma MonthTotalsCoverSpan<T>(s: seq<T>, key: T -> int, cal: (int, int) -> int, currentYear: int)
    requires MonthsInOrder(cal)
    ensures Sum(MonthTotals(s, key, cal, currentYear)) ==
            RangeCount(s, key, cal(currentYear - YearsBefore, 0), cal(currentYear + YearsAfter, 12) - 1)
  {
    var y0 := currentYear - YearsBefore;
    var y1 := currentYear + YearsAfter;
    var r := MonthTotals(s, key, cal, currentYear);
    assert r[..12] == r;
    SumOfTotals(s, key, cal, currentYear, 12);
    GridSums(s, key, cal, y0, y1, 12);
    YearsCoverSpan(s, key, cal, y0, y1);
  }

  /** A client's creation time. */
  function ClientCreated(d: ClientStore.ClientDoc): int { d.createdAt }

  /** A lawyer's creation time, its user row's. */
  function LawyerCreated(row: LawyerStore.LawyerRow): int { row.user.createdAt }

  /** `UserStatistics`. */
  datatype UserStats = UserStats(month: string, lawyers: nat, clients: nat)

  /** `getUsersStatistics`: per month, January first, the lawyers and the
      clients created in it, summed over the eight years. */
  function UsersStatistics(clients: ClientStore.Clients, lawyers: LawyerStore.Lawyers, cal: (int, int) -> int, currentYear: int)
    : (r: seq<UserStats>)
    ensures |r| == 12
    ensures forall m :: 0 <= m < 12 ==> r[m].month == MonthNames[m]
    ensures forall m :: 0 <= m < 12 ==>
              r[m].clients == MonthTotals(clients, ClientCreated, cal, currentYear)[m] &&
              r[m].lawyers == MonthTotals(lawyers, LawyerCreated, cal, currentYear)[m]
  {
    var c := MonthTotals(clients, ClientCreated, cal, currentYear);
    var l := MonthTotals(lawyers, LawyerCreated, cal, currentYear);
    seq(12, m requires 0 <= m < 12 => UserStats(MonthNames[m], l[m], c[m]))
  }

  /** The clients column of the figures. */
  function ClientsColumn(r: seq<UserStats>): (xs: seq<nat>)
    ensures |xs| == |r| && forall i :: 0 <= i < |r| ==> xs[i] == r[i].clients
  {
    seq(|r|, i requires 0 <= i < |r| => r[i].clients)
  }

  /** The lawyers column of the figures. */
  function LawyersColumn(r: seq<UserStats>): (xs: seq<nat>)
    ensures |xs| == |r| && forall i :: 0 <= i < |r| ==> xs[i] == r[i].lawyers
  {
    seq(|r|, i requires 0 <= i < |r| => r[i].lawyers)
  }

  /** The user figures count every client and lawyer created within the
      eight years exactly once. */
  lemma UsersCoverSpan(clients: ClientStore.Clients, lawyers: LawyerStore.Lawyers, cal: (int, int) -> int, currentYear: int)
    requires MonthsInOrder(cal)
    ensures var r := UsersStatistics(clients, lawyers, cal, currentYear);
            var lo := cal(currentYear - YearsBefore, 0);
            var hi := cal(currentYear + YearsAfter, 12) - 1;
            Sum(ClientsColumn(r)) == RangeCount(clients, ClientCreated, lo, hi) &&
            Sum(LawyersColumn(r)) == RangeCount(lawyers, LawyerCreated, lo, hi)
  {
    var r := UsersStatistics(clients, lawyers, cal, currentYear);
    assert ClientsColumn(r) == MonthTotals(clients, ClientCreated, cal, currentYear);
    assert LawyersColumn(r) == MonthTotals(lawyers, LawyerCreated, cal, currentYear);
    MonthTotalsCoverSpan(clients, ClientCreated, cal, currentYear);
    MonthTotalsCoverSpan(lawyers, LawyerCreated, cal, currentYear);
  }

  /** `AppointmentsPerMonthStatistics`. */
  datatype MonthStats = MonthStats(month: string, count: nat)

  /** `getAppointmentsPerMonthStatistics`: per month, January first, the
      appointments created in it, summed over the eight years. */
  function AppointmentsPerMonth(t: Appointments.Table, cal: (int, int) -> int, currentYear: int): (r: seq<MonthStats>)
    ensures |r| == 12
    ensures forall m :: 0 <= m < 12 ==>
              r[m].month == MonthNames[m] && r[m].count == MonthTotals(t, Appointments.CreatedAt, cal, currentYear)[m]
  {
    var c := MonthTotals(t, Appointments.CreatedAt, cal, currentYear);
    seq(12, m requires 0 <= m < 12 => MonthStats(MonthNames[m], c[m]))
  }

  /** The counts of the figures. */
  function CountColumn(r: seq<MonthStats>): (xs: seq<nat>)
    ensures |xs| == |r| && forall i :: 0 <= i < |r| ==> xs[i] == r[i].count
  {
    seq(|r|, i requires 0 <= i < |r| => r[i].count)
  }

  /** The appointment figures count every appointment created within the
      eight years exactly once, as the repository's range count does. */
  lemma AppointmentsCoverSpan(t: Appointments.Table, cal: (int, int) -> int, currentYear: int)
    requires MonthsInOrder(cal)
    ensures Sum(CountColumn(AppointmentsPerMonth(t, cal, currentYear))) ==
            Appointments.GetCountByRange(t, cal(currentYear - YearsBefore, 0), cal(currentYear + YearsAfter, 12) - 1)
  {
    var r := AppointmentsPerMonth(t, cal, currentYear);
    assert CountColumn(r) == MonthTotals(t, Appointments.CreatedAt, cal, currentYear);
    MonthTotalsCoverSpan(t, Appointments.CreatedAt, cal, currentYear);
    RangeCountOfAppointments(t, cal(currentYear - YearsBefore, 0), cal(currentYear + YearsAfter, 12) - 1);
  }

  // ---------------------------------------------------------------------
  // Appointments per status.

  /** `AppointmentsByStatusStatistics`. */
  datatype StatusStats = StatusStats(status: string, count: nat)

  /** `getAppointmentsStatisticsByStatus`: one entry per status, in the
      enumeration's order, with the count of that status. */
  function AppointmentsByStatus(t: Appointments.Table): (r: seq<StatusStats>)
    ensures |r| == |Appointments.AllStatuses|
    ensures forall i :: 0 <= i < |r| ==>
              r[i].status == Appointments.StatusValues[i] &&
              r[i].count == Appointments.GetCountsByStatus(t, Appointments.AllStatuses[i])
  {
    seq(5, i requires 0 <= i < 5 =>
      StatusStats(Appointments.StatusValues[i], Appointments.GetCountsByStatus(t, Appointments.AllStatuses[i])))
  }

  /** The status figures count every appointment exactly once. */
  lemma StatusFiguresCoverTable(t: Appointments.Table)
    ensures Sum(StatusColumn(AppointmentsByStatus(t))) == |t|
  {
    var r := AppointmentsByStatus(t);
    var xs := StatusColumn(r);
    assert xs[..4][..3] == xs[..3] && xs[..3][..2] == xs[..2] && xs[..2][..1] == xs[..1] && xs[..1][..0] == [];
    assert Sum(xs[..1]) == xs[0];
    assert Sum(xs[..2]) == xs[0] + xs[1];
    assert Sum(xs[..3]) == xs[0] + xs[1] + xs[2];
    assert Sum(xs[..4]) == xs[0] + xs[1] + xs[2] + xs[3];
    assert Sum(xs) == xs[0] + xs[1] + xs[2] + xs[3] + xs[4];
    Appointments.StatusCountsCoverTable(t);
  }

  /** The counts of the status figures. */
  function StatusColumn(r: seq<StatusStats>): (xs: seq<nat>)
    ensures |xs| == |r| && forall i :: 0 <= i < |r| ==> xs[i] == r[i].count
  {
    seq(|r|, i requires 0 <= i < |r| => r[i].count)
  }
}
