/** Appointments (`IAppointment`) and their store (`AppointmentRepository`):
    the listings per client and per lawyer, which never show a booking that
    is still waiting for its payment; the date search the availability query
    uses; the bulk queries of the slot cascade; the counts the dashboard
    uses; and the clients of a lawyer.

    The store is kept in creation order. Dates and creation times are epoch
    milliseconds; `toTime` stands for the store's cast of a date text to a
    date. */
module Appointments {

  import opened Outcome
  import opened Records
  import opened Pagination
  import Text
  import ClientStore

  /** `AppointmentStatus`. */
  datatype Status = PaymentPending | Pending | Confirmed | Cancelled | Completed

  /** The statuses in declaration order. */
  const AllStatuses: seq<Status> := [PaymentPending, Pending, Confirmed, Cancelled, Completed]

  function StatusText(s: Status): string {
    match s
    case PaymentPending => "payment-pending"
    case Pending => "pending"
    case Confirmed => "confirmed"
    case Cancelled => "cancelled"
    case Completed => "completed"
  }

  /** `Object.values(AppointmentStatus)`. */
  const StatusValues: seq<string> := ["payment-pending", "pending", "confirmed", "cancelled", "completed"]

  /** `Object.values(AppointmentType)`. */
  const TypeValues: seq<string> := ["video-consulting", "in-person"]

  /** The status a text names, if it names one. */
  function ParseStatus(text: string): (r: Option<Status>)
    ensures r.Some? <==> text in StatusValues
    ensures r.Some? ==> StatusText(r.value) == text
  {
    if text == "payment-pending" then Some(PaymentPending)
    else if text == "pending" then Some(Pending)
    else if text == "confirmed" then Some(Confirmed)
    else if text == "cancelled" then Some(Cancelled)
    else if text == "completed" then Some(Completed)
    else None
  }

  /** Every status has its own text, listed at its position, and the text
      reads back as the same status. */
  lemma {:induction false} StatusTextRoundTrip(s: Status)
    ensures ParseStatus(StatusText(s)) == Some(s)
    ensures StatusValues[IndexOfStatus(s)] == StatusText(s) && AllStatuses[IndexOfStatus(s)] == s
  {
    match s
    case PaymentPending =>
    case Pending =>
    case Confirmed =>
    case Cancelled =>
    case Completed =>
  }

  /** The position of a status in the enumeration. */
  function IndexOfStatus(s: Status): (i: nat)
    ensures i < 5
  {
    match s
    case PaymentPending => 0
    case Pending => 1
    case Confirmed => 2
    case Cancelled => 3
    case Completed => 4
  }

  /** A stored appointment. `appointmentType` is the text the client sent
      (the use case checks it against `TypeValues`). */
  datatype Appointment = Appointment(
    id: string,
    lawyerId: string,
    clientId: string,
    slotId: string,
    appointmentType: string,
    appointmentDate: int,
    reason: string,
    notes: Option<string>,
    status: Status,
    paymentId: string,
    createdAt: int)

  type Table = seq<Appointment>

  function CreatedAt(a: Appointment): int { a.createdAt }

  /** `findById`: the appointment with that id, if any. */
  function FindById(t: Table, id: string): (r: Option<Appointment>)
    ensures r.None? <==> forall i :: 0 <= i < |t| ==> t[i].id != id
    ensures r.Some? ==> r.value.id == id && r.value in t
  {
    var i := FirstIndex(t, (a: Appointment) => a.id == id);
    if i < |t| then Some(t[i]) else None
  }

  /** The fields an `update` writes; each one given replaces the stored
      value. */
  datatype Patch = Patch(status: Option<Status>, notes: Option<string>)

  function Apply(a: Appointment, p: Patch): Appointment {
    a.(status := p.status.GetOr(a.status), notes := if p.notes.Some? then p.notes else a.notes)
  }

  /** A table after a write, and the record written (`null` when none). */
  datatype Updated = Updated(table: Table, record: Option<Appointment>)

  /** `update` (`findByIdAndUpdate` with `new: true`): the appointment with
      that id takes the given fields and is returned; an unknown id writes
      nothing and returns nothing. */
  function Update(t: Table, id: string, p: Patch): (r: Updated)
    ensures r.record.None? <==> FindById(t, id).None?
    ensures r.record.None? ==> r.table == t
    ensures r.record.Some? ==> r.record == Some(Apply(FindById(t, id).value, p)) && FindById(r.table, id) == r.record
    ensures |r.table| == |t|
    ensures forall i :: 0 <= i < |t| && t[i].id != id ==> r.table[i] == t[i]
    ensures forall i :: 0 <= i < |t| && t[i].id == id && (forall j :: 0 <= j < i ==> t[j].id != id) ==> r.table[i] == Apply(t[i], p)
    ensures forall i :: 0 <= i < |t| ==> r.table[i] == t[i] || r.table[i] == Apply(t[i], p)
  {
    var hasId := (a: Appointment) => a.id == id;
    var k := FirstIndex(t, hasId);
    if k < |t| then
      var s := t[k := Apply(t[k], p)];
      FirstIndexIs(s, hasId, k);
      Updated(s, Some(s[k]))
    else Updated(t, None)
  }

  /** `updateAppointmentStatusToConfirmed`: that appointment becomes
      confirmed and nothing else changes. */
  function Confirm(t: Table, id: string): (r: Table)
    ensures FindById(t, id).None? ==> r == t
    ensures FindById(t, id).Some? ==> FindById(r, id) == Some(FindById(t, id).value.(status := Confirmed))
    ensures |r| == |t| && forall i :: 0 <= i < |t| && t[i].id != id ==> r[i] == t[i]
  {
    Update(t, id, Patch(Some(Confirmed), None)).table
  }

  /** `findManyByIds`. */
  function FindManyByIds(t: Table, ids: seq<string>): (r: Table)
    ensures forall i :: 0 <= i < |r| ==> r[i].id in ids && r[i] in t
    ensures forall i :: 0 <= i < |t| && t[i].id in ids ==> t[i] in r
  {
    Filter(t, (a: Appointment) => a.id in ids)
  }

  /** `findBySlotIds`: the appointments booked in any of those slots. */
  function FindBySlotIds(t: Table, slotIds: seq<string>): (r: Table)
    ensures forall i :: 0 <= i < |r| ==> r[i].slotId in slotIds && r[i] in t
    ensures forall i :: 0 <= i < |t| && t[i].slotId in slotIds ==> t[i] in r
  {
    Filter(t, InSlots(slotIds))
  }

  /** Whether an appointment is booked in one of the slots. */
  function InSlots(slotIds: seq<string>): Appointment -> bool {
    (a: Appointment) => a.slotId in slotIds
  }

  /** `deleteMany`: exactly the appointments with those ids go. */
  function DeleteMany(t: Table, ids: seq<string>): (r: Table)
    ensures forall i :: 0 <= i < |r| ==> r[i].id !in ids && r[i] in t
    ensures forall i :: 0 <= i < |t| && t[i].id !in ids ==> t[i] in r
    ensures IsSubsequence(r, t)
  {
    FilterIsSubsequence(t, (a: Appointment) => a.id !in ids);
    Filter(t, (a: Appointment) => a.id !in ids)
  }

  /** What a query returns together with the table after it. */
  datatype Found = Found(table: Table, items: Table)

  /** `updateManyBySlotIdsNotInStatuses`: despite its name it only looks:
      the table is left as it is, the fields are never written, and the
      appointments in those slots whose status is not excluded come back. */
  function UpdateManyBySlotIdsNotInStatuses(t: Table, slotIds: seq<string>, fields: Patch, notIn: seq<Status>): (r: Found)
    ensures r.table == t
    ensures forall i :: 0 <= i < |r.items| ==> r.items[i].slotId in slotIds && r.items[i].status !in notIn && r.items[i] in t
    ensures forall i :: 0 <= i < |t| && t[i].slotId in slotIds && t[i].status !in notIn ==> t[i] in r.items
  {
    Found(t, Filter(t, (a: Appointment) => a.slotId in slotIds && a.status !in notIn))
  }

  /** The bulk "update" is the slot query with the excluded statuses left
      out, and the appointments it returns still carry their old status. */
  lemma BulkUpdateIsSlotQuery(t: Table, slotIds: seq<string>, fields: Patch, notIn: seq<Status>)
    ensures UpdateManyBySlotIdsNotInStatuses(t, slotIds, fields, notIn).items ==
            Filter(FindBySlotIds(t, slotIds), (a: Appointment) => a.status !in notIn)
  {
    FilterBoth(t, (a: Appointment) => a.slotId in slotIds, (a: Appointment) => a.status !in notIn,
               (a: Appointment) => a.slotId in slotIds && a.status !in notIn);
  }

  // ---------------------------------------------------------------------
  // Listings.

  /** A listing as the repository hands it to `getPaginatedResult`, whose
      page arithmetic is not part of this model: the page, the number of
      matches, and the offset and limit asked for. */
  datatype Listing<T> = Listing(items: seq<T>, totalItems: nat, offset: nat, limit: nat)

  /** How many matches `.skip(limit * offset)` passes over: the offset
      counts pages. */
  function Skipped(offset: nat, limit: nat): nat { limit * offset }

  /** `.skip(limit * offset).limit(limit)`; a limit of 0 sets no limit. */
  function PageOf<T>(s: seq<T>, offset: nat, limit: nat): (w: seq<T>)
    ensures limit == 0 ==> w == s
    ensures limit > 0 ==> |w| <= limit
    ensures limit > 0 && Skipped(offset, limit) < |s| ==> |w| == Min(limit, |s| - Skipped(offset, limit))
    ensures forall i :: 0 <= i < |w| ==> Skipped(offset, limit) + i < |s| && w[i] == s[Skipped(offset, limit) + i]
  {
    if limit == 0 then assert Skipped(offset, limit) == 0; s
    else Window(s, Skipped(offset, limit), limit)
  }

  /** A listing's status condition: never an unpaid booking, and, when a
      status is given (a non-empty text), only that status. */
  predicate Listed(a: Appointment, status: Option<string>) {
    a.status != PaymentPending && (Truthy(status) ==> StatusText(a.status) == status.value)
  }

  predicate ClientListed(a: Appointment, clientId: string, status: Option<string>) {
    a.clientId == clientId && Listed(a, status)
  }

  predicate LawyerListed(a: Appointment, lawyerId: string, status: Option<string>) {
    a.lawyerId == lawyerId && Listed(a, status)
  }

  /** The records `p` keeps, newest first. */
  function NewestFirst(t: Table, p: Appointment -> bool): (s: Table)
    ensures |s| == Count(t, p)
    ensures forall i :: 0 <= i < |s| ==> p(s[i]) && s[i] in t
    ensures forall i :: 0 <= i < |t| && p(t[i]) ==> t[i] in s
  {
    var f := Filter(t, p);
    var s := Reverse(f);
    forall i | 0 <= i < |t| && p(t[i]) ensures t[i] in s {
      var j :| 0 <= j < |f| && f[j] == t[i];
      assert s[|f| - 1 - j] == f[j];
    }
    s
  }

  /** A listing of the records `p` keeps: newest first, a page at a time,
      with the total counting every match. */
  function ListOf(t: Table, p: Appointment -> bool, offset: nat, limit: nat): (l: Listing<Appointment>)
    ensures l.totalItems == Count(t, p)
    ensures forall i :: 0 <= i < |l.items| ==> p(l.items[i]) && l.items[i] in t
    ensures limit > 0 ==> |l.items| <= limit
    ensures limit == 0 ==> forall i :: 0 <= i < |t| && p(t[i]) ==> t[i] in l.items
    ensures l.offset == offset && l.limit == limit
    ensures l.items == PageOf(NewestFirst(t, p), offset, limit)
  {
    var s := NewestFirst(t, p);
    var w := PageOf(s, offset, limit);
    forall i | 0 <= i < |w| ensures p(w[i]) && w[i] in t {
      assert w[i] == s[Skipped(offset, limit) + i];
    }
    Listing(w, |s|, offset, limit)
  }

  /** `findManyByClientId`: that client's appointments other than unpaid
      ones (only those of the given status, if one is given), newest first,
      a page at a time; the total counts every match. */
  function FindManyByClientId(t: Table, clientId: string, offset: nat, limit: nat, status: Option<string>): (l: Listing<Appointment>)
    ensures l.totalItems == Count(t, (a: Appointment) => ClientListed(a, clientId, status))
    ensures forall i :: 0 <= i < |l.items| ==> ClientListed(l.items[i], clientId, status) && l.items[i] in t
    ensures limit > 0 ==> |l.items| <= limit
    ensures limit == 0 ==> forall i :: 0 <= i < |t| && ClientListed(t[i], clientId, status) ==> t[i] in l.items
    ensures l.offset == offset && l.limit == limit
  {
    ListOf(t, (a: Appointment) => ClientListed(a, clientId, status), offset, limit)
  }

  /** `findManyByLawyerId`: the same listing over that lawyer's
      appointments. */
  function FindManyByLawyerId(t: Table, lawyerId: string, offset: nat, limit: nat, status: Option<string>): (l: Listing<Appointment>)
    ensures l.totalItems == Count(t, (a: Appointment) => LawyerListed(a, lawyerId, status))
    ensures forall i :: 0 <= i < |l.items| ==> LawyerListed(l.items[i], lawyerId, status) && l.items[i] in t
    ensures limit > 0 ==> |l.items| <= limit
    ensures limit == 0 ==> forall i :: 0 <= i < |t| && LawyerListed(t[i], lawyerId, status) ==> t[i] in l.items
    ensures l.offset == offset && l.limit == limit
  {
    ListOf(t, (a: Appointment) => LawyerListed(a, lawyerId, status), offset, limit)
  }

  /** A page of a newest-first sequence is newest first. */
  lemma PageKeepsOrder(s: Table, offset: nat, limit: nat)
    requires Descending(s, CreatedAt)
    ensures Descending(PageOf(s, offset, limit), CreatedAt)
  {
    var w := PageOf(s, offset, limit);
    var skip := Skipped(offset, limit);
    forall i, j | 0 <= i < j < |w| ensures CreatedAt(w[j]) <= CreatedAt(w[i]) {
      var a, b := skip + i, skip + j;
      assert 0 <= a < b < |s| && w[i] == s[a] && w[j] == s[b];
      assert CreatedAt(s[b]) <= CreatedAt(s[a]);
    }
  }

  /** In a table kept in creation order, a listing comes newest first. */
  lemma ListOfNewestFirst(t: Table, p: Appointment -> bool, offset: nat, limit: nat)
    requires Ascending(t, CreatedAt)
    ensures Descending(ListOf(t, p, offset, limit).items, CreatedAt)
  {
    FilterAscending(t, p, CreatedAt);
    ReverseOfAscending(Filter(t, p), CreatedAt);
    assert NewestFirst(t, p) == Reverse(Filter(t, p));
    PageKeepsOrder(NewestFirst(t, p), offset, limit);
  }

  /** In a table kept in creation order, both listings come newest first. */
  lemma ListingsNewestFirst(t: Table, clientId: string, lawyerId: string, offset: nat, limit: nat, status: Option<string>)
    requires Ascending(t, CreatedAt)
    ensures Descending(FindManyByClientId(t, clientId, offset, limit, status).items, CreatedAt)
    ensures Descending(FindManyByLawyerId(t, lawyerId, offset, limit, status).items, CreatedAt)
  {
    ListOfNewestFirst(t, (a: Appointment) => ClientListed(a, clientId, status), offset, limit);
    ListOfNewestFirst(t, (a: Appointment) => LawyerListed(a, lawyerId, status), offset, limit);
  }

  /** The offset is a page number: match number `k`, newest first, is item
      `k % limit` of page `k / limit`. */
  lemma MatchOnItsPage(t: Table, p: Appointment -> bool, limit: nat, k: nat)
    requires limit > 0 && k < Count(t, p)
    ensures var page := ListOf(t, p, k / limit, limit).items;
            k % limit < |page| && page[k % limit] == NewestFirst(t, p)[k]
  {
    var s := NewestFirst(t, p);
    var q, r := k / limit, k % limit;
    PlaceOnPage(k, limit);
    var skip := Skipped(q, limit);
    var page := PageOf(s, q, limit);
    assert page == ListOf(t, p, q, limit).items;
    assert skip + r == k < |s|;
    assert |page| == Min(limit, |s| - skip);
    assert page[r] == s[skip + r];
  }

  /** Match `k` lies `k % limit` places into page `k / limit`. */
  lemma PlaceOnPage(k: nat, limit: nat)
    requires limit > 0
    ensures Skipped(k / limit, limit) + k % limit == k && k % limit < limit
  {
  }

  /** A booking that is still waiting for its payment changes neither
      listing: neither its items nor its total. */
  lemma UnpaidNotListed(t: Table, a: Appointment, clientId: string, lawyerId: string, offset: nat, limit: nat, status: Option<string>)
    requires a.status == PaymentPending
    ensures FindManyByClientId(t + [a], clientId, offset, limit, status) == FindManyByClientId(t, clientId, offset, limit, status)
    ensures FindManyByLawyerId(t + [a], lawyerId, offset, limit, status) == FindManyByLawyerId(t, lawyerId, offset, limit, status)
  {
    var byClient := (x: Appointment) => ClientListed(x, clientId, status);
    var byLawyer := (x: Appointment) => LawyerListed(x, lawyerId, status);
    FilterAppend(t, [a], byClient);
    FilterAppend(t, [a], byLawyer);
    assert Filter([a], byClient) == [] && Filter([a], byLawyer) == [];
    assert Filter(t + [a], byClient) == Filter(t, byClient);
    assert Filter(t + [a], byLawyer) == Filter(t, byLawyer);
  }

  // ---------------------------------------------------------------------
  // Date search.

  /** `appointmentDate.split("T")[0]`: the date text without its time. */
  function DateOnly(date: string): (d: string)
    ensures 'T' !in d
    ensures 'T' !in date ==> d == date
  {
    Text.SplitHead(date, 'T');
    if 'T' !in date then Text.SplitWithout(date, 'T'); Text.Split(date, 'T')[0]
    else Text.Split(date, 'T')[0]
  }

  /** An ISO timestamp `<date>T<time>` is cut back to its date. */
  lemma DateOnlyOfTimestamp(day: string, time: string)
    requires 'T' !in day
    ensures DateOnly(day + "T" + time) == day
  {
    Text.SplitAfter(day, 'T', time);
    assert day + "T" + time == day + ['T'] + time;
  }

  /** `findManyByDateAndLawyerId`: that lawyer's appointments dated on or
      after the date part of the given text. */
  function FindManyByDateAndLawyerId(t: Table, date: string, lawyerId: string, toTime: string -> int): (r: Table)
    ensures forall i :: 0 <= i < |r| ==>
              r[i].lawyerId == lawyerId && r[i].appointmentDate >= toTime(DateOnly(date)) && r[i] in t
    ensures forall i :: 0 <= i < |t| && t[i].lawyerId == lawyerId && t[i].appointmentDate >= toTime(DateOnly(date)) ==>
              t[i] in r
  {
    var from := toTime(DateOnly(date));
    Filter(t, (a: Appointment) => a.lawyerId == lawyerId && a.appointmentDate >= from)
  }

  /** `findByDateAndSlot`: an appointment in that slot on exactly that date. */
  function FindByDateAndSlot(t: Table, at: int, slotId: string): (r: Option<Appointment>)
    ensures r.None? <==> forall i :: 0 <= i < |t| ==> !(t[i].appointmentDate == at && t[i].slotId == slotId)
    ensures r.Some? ==> r.value.appointmentDate == at && r.value.slotId == slotId && r.value in t
  {
    var i := FirstIndex(t, (a: Appointment) => a.appointmentDate == at && a.slotId == slotId);
    if i < |t| then Some(t[i]) else None
  }

  // ---------------------------------------------------------------------
  // Counts.

  predicate CreatedIn(a: Appointment, start: int, end: int) {
    start <= a.createdAt <= end
  }

  /** `getCountByRange`: appointments created from `start` to `end`, both
      included. */
  function GetCountByRange(t: Table, start: int, end: int): (n: nat)
    ensures n <= |t|
    ensures n == 0 <==> forall i :: 0 <= i < |t| ==> !CreatedIn(t[i], start, end)
  {
    Count(t, (a: Appointment) => CreatedIn(a, start, end))
  }

  /** Adjacent ranges add up: the count of `[lo, hi]` splits at any `mid`. */
  lemma {:induction false} RangeCountsAdd(t: Table, lo: int, mid: int, hi: int)
    requires lo <= mid < hi
    ensures GetCountByRange(t, lo, mid) + GetCountByRange(t, mid + 1, hi) == GetCountByRange(t, lo, hi)
    decreases |t|
  {
    if |t| > 0 {
      RangeCountsAdd(t[1..], lo, mid, hi);
    }
  }

  /** `getCountsByStatus`: how many appointments have that status, 0 when
      none has. */
  function GetCountsByStatus(t: Table, status: Status): (n: nat)
    ensures n <= |t|
    ensures n == 0 <==> forall i :: 0 <= i < |t| ==> t[i].status != status
  {
    Count(t, (a: Appointment) => a.status == status)
  }

  /** Every appointment has exactly one status: the counts per status add
      up to the size of the table. */
  lemma {:induction false} StatusCountsCoverTable(t: Table)
    ensures GetCountsByStatus(t, PaymentPending) + GetCountsByStatus(t, Pending) + GetCountsByStatus(t, Confirmed) +
            GetCountsByStatus(t, Cancelled) + GetCountsByStatus(t, Completed) == |t|
    decreases |t|
  {
    if |t| > 0 {
      StatusCountsCoverTable(t[1..]);
    }
  }

  // ---------------------------------------------------------------------
  // Clients of a lawyer.

  /** The client ids of that lawyer's appointments, one per appointment. */
  function ClientIdsOf(t: Table, lawyerId: string): (ids: seq<string>)
    ensures forall c :: c in ids <==> exists i :: 0 <= i < |t| && t[i].lawyerId == lawyerId && t[i].clientId == c
    decreases |t|
  {
    if |t| == 0 then []
    else
      var rest := ClientIdsOf(t[1..], lawyerId);
      assert forall i :: 1 <= i < |t| ==> t[i] == t[1..][i - 1];
      if t[0].lawyerId == lawyerId then [t[0].clientId] + rest else rest
  }

  function DocId(d: ClientStore.ClientDoc): Option<string> { d.account.id }

  /** A client document whose id is among `ids`. */
  predicate ClientAmong(d: ClientStore.ClientDoc, ids: seq<string>) {
    d.account.id.Some? && d.account.id.value in ids
  }

  /** The `$project` that drops the credentials. */
  function WithoutPassword(d: ClientStore.ClientDoc): ClientStore.ClientDoc {
    d.(account := d.account.(password := None))
  }

  /** `findClientsByLawyerId`: the clients who hold an appointment with that
      lawyer, each client document once however many appointments it has,
      without its password, a page at a time (`limit * offset` skipped);
      the total is the number of such clients, 0 when there are none. The
      store refuses a limit of 0 with `limitError`. The grouping does not
      fix an order; here it is the order of the client table. */
  function FindClientsByLawyerId(t: Table, clients: ClientStore.Clients, lawyerId: string, limit: nat, offset: nat,
                                 limitError: string): (r: Result<Listing<ClientStore.ClientDoc>>)
    ensures r.Err? <==> limit == 0
    ensures r.Err? ==> r.error == Plain(limitError)
    ensures r.Ok? ==> |r.value.items| <= limit && r.value.offset == offset && r.value.limit == limit
    ensures r.Ok? ==> forall i :: 0 <= i < |r.value.items| ==>
              r.value.items[i].account.password.None? &&
              ClientAmong(r.value.items[i], ClientIdsOf(t, lawyerId)) &&
              exists k :: 0 <= k < |clients| && r.value.items[i] == WithoutPassword(clients[k])
    ensures r.Ok? ==> (r.value.totalItems == 0 <==>
              forall k :: 0 <= k < |clients| ==> !ClientAmong(clients[k], ClientIdsOf(t, lawyerId)))
    ensures r.Ok? && UniqueBy(clients, DocId) ==> UniqueBy(r.value.items, DocId)
    ensures r.Ok? ==> r.value.totalItems == Count(clients, (d: ClientStore.ClientDoc) => ClientAmong(d, ClientIdsOf(t, lawyerId)))
  {
    if limit == 0 then Err(Plain(limitError))
    else
      var ids := ClientIdsOf(t, lawyerId);
      var all := Filter(clients, (d: ClientStore.ClientDoc) => ClientAmong(d, ids));
      var w := PageOf(all, offset, limit);
      var items := seq(|w|, i requires 0 <= i < |w| => WithoutPassword(w[i]));
      assert |all| > 0 ==> all[0] in clients && ClientAmong(all[0], ids);
      assert forall i :: 0 <= i < |items| ==> DocId(items[i]) == DocId(all[Skipped(offset, limit) + i]);
      assert UniqueBy(clients, DocId) ==> UniqueBy(all, DocId) by {
        if UniqueBy(clients, DocId) {
          FilterKeepsUniqueBy(clients, (d: ClientStore.ClientDoc) => ClientAmong(d, ids), DocId);
        }
      }
      Ok(Listing(items, |all|, offset, limit))
  }

  /** A client of the lawyer with `m` of the lawyer's clients stored before
      it appears, without its password, as item `m - limit * offset` of the
      page whenever `m` falls in that page. */
  lemma LawyerClientOnItsPage(t: Table, clients: ClientStore.Clients, lawyerId: string, limit: nat, offset: nat,
                              limitError: string, j: nat)
    requires limit > 0 && j < |clients| && ClientAmong(clients[j], ClientIdsOf(t, lawyerId))
    requires var m := Count(clients[..j], (d: ClientStore.ClientDoc) => ClientAmong(d, ClientIdsOf(t, lawyerId)));
             Skipped(offset, limit) <= m < Skipped(offset, limit) + limit
    ensures var m := Count(clients[..j], (d: ClientStore.ClientDoc) => ClientAmong(d, ClientIdsOf(t, lawyerId)));
            var r := FindClientsByLawyerId(t, clients, lawyerId, limit, offset, limitError);
            r.Ok? && m - Skipped(offset, limit) < |r.value.items| &&
            r.value.items[m - Skipped(offset, limit)] == WithoutPassword(clients[j])
  {
    var among := (d: ClientStore.ClientDoc) => ClientAmong(d, ClientIdsOf(t, lawyerId));
    FilterRank(clients, among, j);
    var all := Filter(clients, among);
    var m := Count(clients[..j], among);
    var w := PageOf(all, offset, limit);
    assert m - Skipped(offset, limit) < |w| && w[m - Skipped(offset, limit)] == clients[j];
  }
}
