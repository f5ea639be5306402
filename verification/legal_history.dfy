/** The legal-history table (`LegalHistoryRepository`): the case records a
    lawyer keeps about a client, listed per client or per lawyer, newest
    first, a page at a time. The table is kept in creation order. */
module LegalHistory {

  import opened Outcome
  import opened Records
  import opened Pagination

  /** `ILegalHistory`; dates are epoch milliseconds. */
  datatype HistoryRecord = HistoryRecord(
    id: string,
    clientId: string,
    lawyerId: string,
    title: string,
    caseType: string,
    description: string,
    date: int,
    status: string,
    documents: seq<string>,
    createdAt: int)

  type Histories = seq<HistoryRecord>

  const RecordNotFound: string := "Record to update not found."
  const RecordToDeleteNotFound: string := "Record to delete does not exist."

  function CreatedAt(h: HistoryRecord): int { h.createdAt }

  /** `findById`: the record with that id, if any. */
  function FindById(rows: Histories, id: string): (r: Option<HistoryRecord>)
    ensures r.None? <==> forall i :: 0 <= i < |rows| ==> rows[i].id != id
    ensures r.Some? ==> r.value.id == id && r.value in rows
  {
    var i := FirstIndex(rows, (h: HistoryRecord) => h.id == id);
    if i < |rows| then Some(rows[i]) else None
  }

  /** The records a listing sorts and pages: those `p` keeps, newest first. */
  function NewestFirst(rows: Histories, p: HistoryRecord -> bool): (s: Histories)
    ensures |s| == |Filter(rows, p)|
    ensures forall i :: 0 <= i < |s| ==> p(s[i]) && s[i] in rows
  {
    Reverse(Filter(rows, p))
  }

  /** `findManyByClientId`: that client's records, newest first, skipping
      `offset` records and taking at most `limit`; the total counts all of
      them. */
  function FindManyByClientId(rows: Histories, clientId: string, offset: nat, limit: nat): (p: Page<HistoryRecord>)
    requires limit > 0
    ensures forall i :: 0 <= i < |p.items| ==> p.items[i].clientId == clientId && p.items[i] in rows
    ensures p.totalItems == Count(rows, (h: HistoryRecord) => h.clientId == clientId)
    ensures |p.items| <= limit
    ensures p.currentPage == offset / limit + 1
    ensures p.hasNextPage <==> p.currentPage < p.totalPages
    ensures p.hasPreviousPage <==> p.currentPage > 1
    ensures p.items == Window(NewestFirst(rows, (h: HistoryRecord) => h.clientId == clientId), offset, limit)
  {
    Paginate(NewestFirst(rows, (h: HistoryRecord) => h.clientId == clientId), offset, limit)
  }

  /** `findManyByLawyerId`: the same listing over that lawyer's records. */
  function FindManyByLawyerId(rows: Histories, lawyerId: string, offset: nat, limit: nat): (p: Page<HistoryRecord>)
    requires limit > 0
    ensures forall i :: 0 <= i < |p.items| ==> p.items[i].lawyerId == lawyerId && p.items[i] in rows
    ensures p.totalItems == Count(rows, (h: HistoryRecord) => h.lawyerId == lawyerId)
    ensures |p.items| <= limit
    ensures p.currentPage == offset / limit + 1
    ensures p.hasNextPage <==> p.currentPage < p.totalPages
    ensures p.hasPreviousPage <==> p.currentPage > 1
    ensures p.items == Window(NewestFirst(rows, (h: HistoryRecord) => h.lawyerId == lawyerId), offset, limit)
  {
    Paginate(NewestFirst(rows, (h: HistoryRecord) => h.lawyerId == lawyerId), offset, limit)
  }

  /** A record of the client with `m` of the client's records stored after
      it (so `m` newer ones, in a table kept in creation order) is item
      `m - offset` of the page whenever `m` falls in the page; likewise for
      the lawyer's listing. */
  lemma RecordOnItsPage(rows: Histories, offset: nat, limit: nat, j: nat)
    requires limit > 0 && j < |rows|
    ensures var m := Count(rows[j + 1..], (h: HistoryRecord) => h.clientId == rows[j].clientId);
            var p := FindManyByClientId(rows, rows[j].clientId, offset, limit);
            offset <= m < offset + limit ==> m - offset < |p.items| && p.items[m - offset] == rows[j]
    ensures var m := Count(rows[j + 1..], (h: HistoryRecord) => h.lawyerId == rows[j].lawyerId);
            var p := FindManyByLawyerId(rows, rows[j].lawyerId, offset, limit);
            offset <= m < offset + limit ==> m - offset < |p.items| && p.items[m - offset] == rows[j]
  {
    var byClient := (h: HistoryRecord) => h.clientId == rows[j].clientId;
    var byLawyer := (h: HistoryRecord) => h.lawyerId == rows[j].lawyerId;
    if offset <= Count(rows[j + 1..], byClient) < offset + limit {
      NewerOnPage(rows, byClient, offset, limit, j);
    }
    if offset <= Count(rows[j + 1..], byLawyer) < offset + limit {
      NewerOnPage(rows, byLawyer, offset, limit, j);
    }
  }

  /** The window of a newest-first listing holds a kept record at its rank. */
  lemma NewerOnPage(rows: Histories, p: HistoryRecord -> bool, offset: nat, limit: nat, j: nat)
    requires j < |rows| && p(rows[j])
    requires var m := Count(rows[j + 1..], p); offset <= m < offset + limit
    ensures var m := Count(rows[j + 1..], p);
            var w := Window(NewestFirst(rows, p), offset, limit);
            m - offset < |w| && w[m - offset] == rows[j]
  {
    var m := Count(rows[j + 1..], p);
    FilterRankReversed(rows, p, j);
    var s := NewestFirst(rows, p);
    assert m < |s| && s[m] == rows[j];
  }

  /** In a table kept in creation order, both listings come newest first. */
  lemma ListingsNewestFirst(rows: Histories, clientId: string, lawyerId: string, offset: nat, limit: nat)
    requires limit > 0
    requires Ascending(rows, CreatedAt)
    ensures Descending(FindManyByClientId(rows, clientId, offset, limit).items, CreatedAt)
    ensures Descending(FindManyByLawyerId(rows, lawyerId, offset, limit).items, CreatedAt)
  {
    var byClient := (h: HistoryRecord) => h.clientId == clientId;
    var byLawyer := (h: HistoryRecord) => h.lawyerId == lawyerId;
    FilterAscending(rows, byClient, CreatedAt);
    ReverseOfAscending(Filter(rows, byClient), CreatedAt);
    FilterAscending(rows, byLawyer, CreatedAt);
    ReverseOfAscending(Filter(rows, byLawyer), CreatedAt);
    var c := NewestFirst(rows, byClient);
    var l := NewestFirst(rows, byLawyer);
    var wc := Window(c, offset, limit);
    var wl := Window(l, offset, limit);
    forall i, j | 0 <= i < j < |wc| ensures CreatedAt(wc[j]) <= CreatedAt(wc[i]) {
      assert wc[i] == c[offset + i] && wc[j] == c[offset + j];
    }
    forall i, j | 0 <= i < j < |wl| ensures CreatedAt(wl[j]) <= CreatedAt(wl[i]) {
      assert wl[i] == l[offset + i] && wl[j] == l[offset + j];
    }
  }

  /** `create`: the record is stored with a new id and the creation time. */
  function Create(rows: Histories, data: HistoryRecord, freshId: string, now: int): (r: Created)
    ensures r.rows == rows + [r.record]
    ensures r.record == data.(id := freshId, createdAt := now)
  {
    var record := data.(id := freshId, createdAt := now);
    Created(rows + [record], record)
  }

  /** A stored record and the table after storing it. */
  datatype Created = Created(rows: Histories, record: HistoryRecord)

  /** `update`: the record with that id takes the given fields (it keeps its
      id and creation time); an unknown id is an error. */
  function Update(rows: Histories, id: string, data: HistoryRecord): (r: Result<Histories>)
    ensures r.Err? <==> FindById(rows, id).None?
    ensures r.Ok? ==> |r.value| == |rows|
    ensures r.Ok? ==> forall i :: 0 <= i < |rows| && rows[i].id != id ==> r.value[i] == rows[i]
    ensures r.Ok? ==> FindById(r.value, id) == Some(data.(id := id, createdAt := FindById(rows, id).value.createdAt))
  {
    var hasId := (h: HistoryRecord) => h.id == id;
    var k := FirstIndex(rows, hasId);
    if k < |rows| then
      var s := rows[k := data.(id := id, createdAt := rows[k].createdAt)];
      FirstIndexIs(s, hasId, k);
      Ok(s)
    else Err(Plain(RecordNotFound))
  }

  /** `deleteById`: the record with that id goes; an unknown id is an
      error. */
  function DeleteById(rows: Histories, id: string): (r: Result<Histories>)
    ensures r.Err? <==> FindById(rows, id).None?
    ensures r.Ok? ==> |r.value| == |rows| - 1
    ensures r.Ok? ==> forall i :: 0 <= i < |r.value| ==> r.value[i] in rows
    ensures r.Ok? ==> (exists k :: 0 <= k < |rows| && rows[k].id == id &&
                        (forall j :: 0 <= j < k ==> rows[j].id != id) &&
                        r.value[..k] == rows[..k] && r.value[k..] == rows[k + 1..])
  {
    var k := FirstIndex(rows, (h: HistoryRecord) => h.id == id);
    if k < |rows| then Ok(rows[..k] + rows[k + 1..])
    else Err(Plain(RecordToDeleteNotFound))
  }

  /** With unique ids, a deleted record is gone, and a created one is found
      by its new id. */
  lemma CreateFindDelete(rows: Histories, data: HistoryRecord, freshId: string, now: int)
    requires forall i :: 0 <= i < |rows| ==> rows[i].id != freshId
    ensures var c := Create(rows, data, freshId, now);
            FindById(c.rows, freshId) == Some(c.record) &&
            DeleteById(c.rows, freshId) == Ok(rows) &&
            FindById(DeleteById(c.rows, freshId).value, freshId).None?
  {
    var c := Create(rows, data, freshId, now);
    FirstIndexIs(c.rows, (h: HistoryRecord) => h.id == freshId, |rows|);
    assert c.rows[..|rows|] + c.rows[|rows| + 1..] == rows;
  }
}
