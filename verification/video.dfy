/** The video sessions a party is shown (`GetVideoSectionUseCase`): the
    sessions of the coming two days whose appointment is confirmed, a
    lawyer's next pending sessions, and one session by id. Times are epoch
    milliseconds; the current time is a parameter. */
module Video {

  import opened Outcome
  import opened Records
  import opened Booking
  import Pagination
  import Appointments
  import Validators

  /** One day, in milliseconds. */
  const DayMillis: int := 24 * 60 * 60000

  /** How far ahead the upcoming sessions reach: two days. */
  const UpcomingWindow: int := 2 * DayMillis

  /** How many pending sessions a lawyer is shown. */
  const PendingLimit: nat := 10

  /** Whose sessions a query asks for. */
  datatype Party = LawyerParty | ClientParty

  /** Whether the session belongs to that party's id. */
  predicate Of(v: VideoSection, party: Party, id: string) {
    match party
    case LawyerParty => v.lawyerId == id
    case ClientParty => v.clientId == id
  }

  /** `findById`. */
  function FindSectionById(vs: seq<VideoSection>, id: string): (r: Option<VideoSection>)
    ensures r.None? <==> forall i :: 0 <= i < |vs| ==> vs[i].id != id
    ensures r.Some? ==> r.value.id == id && r.value in vs
  {
    var i := FirstIndex(vs, (v: VideoSection) => v.id == id);
    if i < |vs| then Some(vs[i]) else None
  }

  /** `findByStartTimeRangeByLawyerId` / `findByStartTimeRangeByClientId`:
      the party's sessions starting within `[from, to]`, in store order. */
  function FindByStartTimeRange(vs: seq<VideoSection>, from: int, to: int, party: Party, id: string): (r: seq<VideoSection>)
    ensures forall i :: 0 <= i < |r| ==> r[i] in vs && Of(r[i], party, id) && from <= r[i].startTime <= to
    ensures forall i :: 0 <= i < |vs| && Of(vs[i], party, id) && from <= vs[i].startTime <= to ==> vs[i] in r
    ensures IsSubsequence(r, vs)
  {
    var p := (v: VideoSection) => Of(v, party, id) && from <= v.startTime && v.startTime <= to;
    FilterIsSubsequence(vs, p);
    Filter(vs, p)
  }

  /** The ids of the confirmed appointments among `t`. */
  predicate ConfirmedIn(t: Appointments.Table, appointmentId: string) {
    exists i :: 0 <= i < |t| && t[i].id == appointmentId && t[i].status == Appointments.Confirmed
  }

  /** `filterSectionsByAppointmentStatus`: the sessions whose appointment is
      among the confirmed ones, in their order. */
  function FilterByConfirmed(vs: seq<VideoSection>, t: Appointments.Table): (r: seq<VideoSection>)
    ensures forall i :: 0 <= i < |r| ==> r[i] in vs && ConfirmedIn(t, r[i].appointmentId)
    ensures forall i :: 0 <= i < |vs| && ConfirmedIn(t, vs[i].appointmentId) ==> vs[i] in r
    ensures IsSubsequence(r, vs)
  {
    var confirmed := Filter(t, (a: Appointments.Appointment) => a.status == Appointments.Confirmed);
    var ids := Ids(confirmed);
    assert forall x :: x in ids <==> ConfirmedIn(t, x) by {
      forall x ensures x in ids <==> ConfirmedIn(t, x) {
        if x in ids {
          var k :| 0 <= k < |confirmed| && confirmed[k].id == x;
          assert confirmed[k] in t;
        }
        if ConfirmedIn(t, x) {
          var i :| 0 <= i < |t| && t[i].id == x && t[i].status == Appointments.Confirmed;
          assert t[i] in confirmed;
          var k :| 0 <= k < |confirmed| && confirmed[k] == t[i];
          assert ids[k] == x;
        }
      }
    }
    var keep := (v: VideoSection) => v.appointmentId in ids;
    FilterIsSubsequence(vs, keep);
    Filter(vs, keep)
  }

  /** The ids of appointments, in order. */
  function Ids(t: Appointments.Table): (ids: seq<string>)
    ensures |ids| == |t| && forall k :: 0 <= k < |t| ==> ids[k] == t[k].id
  {
    if |t| == 0 then [] else [t[0].id] + Ids(t[1..])
  }

  /** A session shown as upcoming: the party's, starting within two days
      from now, for a confirmed appointment. */
  predicate Upcoming(v: VideoSection, t: Appointments.Table, party: Party, id: string, now: int) {
    Of(v, party, id) && now <= v.startTime <= now + UpcomingWindow && ConfirmedIn(t, v.appointmentId)
  }

  /** `getSectionInOneDayLawyer` / `getSectionsInOneDayClient`: the id must
      be an id; the party's sessions of the coming two days are looked up,
      their appointments fetched, and only the sessions of confirmed
      appointments kept. */
  function GetUpcomingSections(vs: seq<VideoSection>, t: Appointments.Table, party: Party, id: string, now: int)
    : (r: Result<seq<VideoSection>>)
    ensures r.Err? <==> !Validators.IsIdText(id)
    ensures r.Err? ==> r.error == Custom(BadRequest, Validators.IdMessage)
    ensures r.Ok? ==> forall i :: 0 <= i < |r.value| ==> r.value[i] in vs && Upcoming(r.value[i], t, party, id, now)
    ensures r.Ok? ==> forall i :: 0 <= i < |vs| && Upcoming(vs[i], t, party, id, now) ==> vs[i] in r.value
    ensures r.Ok? ==> IsSubsequence(r.value, vs)
  {
    match Validators.ValidateIdFormat(id)
    case Fail(e) => Err(e)
    case Pass =>
      var sections := FindByStartTimeRange(vs, now, now + UpcomingWindow, party, id);
      var ids := AppointmentIds(sections);
      if |ids| == 0 then
        Ok([])
      else
        var shown := FilterByConfirmed(sections, Appointments.FindManyByIds(t, ids));
        FetchedConfirmed(t, sections);
        ShownAreUpcoming(vs, sections, shown, t, party, id, now);
        Ok(shown)
  }

  /** The appointment ids of the sessions, in order. */
  function AppointmentIds(vs: seq<VideoSection>): (ids: seq<string>)
    ensures |ids| == |vs| && forall k :: 0 <= k < |vs| ==> ids[k] == vs[k].appointmentId
  {
    if |vs| == 0 then [] else [vs[0].appointmentId] + AppointmentIds(vs[1..])
  }

  /** Fetching the sessions' appointments by id loses none of the
      confirmed ones. */
  lemma FetchedConfirmed(t: Appointments.Table, sections: seq<VideoSection>)
    ensures var fetched := Appointments.FindManyByIds(t, AppointmentIds(sections));
            forall i :: 0 <= i < |sections| ==>
              (ConfirmedIn(fetched, sections[i].appointmentId) <==> ConfirmedIn(t, sections[i].appointmentId))
  {
    var ids := AppointmentIds(sections);
    var fetched := Appointments.FindManyByIds(t, ids);
    forall i | 0 <= i < |sections|
      ensures ConfirmedIn(fetched, sections[i].appointmentId) <==> ConfirmedIn(t, sections[i].appointmentId)
    {
      var x := sections[i].appointmentId;
      assert ids[i] == x;
      if ConfirmedIn(t, x) {
        var j :| 0 <= j < |t| && t[j].id == x && t[j].status == Appointments.Confirmed;
        assert t[j] in fetched;
      }
      if ConfirmedIn(fetched, x) {
        var j :| 0 <= j < |fetched| && fetched[j].id == x && fetched[j].status == Appointments.Confirmed;
        assert fetched[j] in t;
      }
    }
  }

  /** The sessions of the window whose appointment is confirmed are exactly
      the upcoming ones, in store order. */
  lemma ShownAreUpcoming(vs: seq<VideoSection>, sections: seq<VideoSection>, shown: seq<VideoSection>,
                         t: Appointments.Table, party: Party, id: string, now: int)
    requires sections == FindByStartTimeRange(vs, now, now + UpcomingWindow, party, id)
    requires forall i :: 0 <= i < |shown| ==> shown[i] in sections
    requires forall i :: 0 <= i < |sections| ==>
               (sections[i] in shown <==> ConfirmedIn(t, sections[i].appointmentId))
    requires IsSubsequence(shown, sections)
    ensures forall i :: 0 <= i < |shown| ==> shown[i] in vs && Upcoming(shown[i], t, party, id, now)
    ensures forall i :: 0 <= i < |vs| && Upcoming(vs[i], t, party, id, now) ==> vs[i] in shown
    ensures IsSubsequence(shown, vs)
  {
    SubsequenceTransitive(shown, sections, vs);
    ConfirmedWindow(vs, sections, shown, t, party, id, now);
  }

  /** Keeping the confirmed sessions of the window keeps exactly the
      upcoming ones. */
  lemma ConfirmedWindow(vs: seq<VideoSection>, sections: seq<VideoSection>, shown: seq<VideoSection>,
                        t: Appointments.Table, party: Party, id: string, now: int)
    requires forall i :: 0 <= i < |sections| ==>
               sections[i] in vs && Of(sections[i], party, id) && now <= sections[i].startTime <= now + UpcomingWindow
    requires forall i :: 0 <= i < |vs| && Of(vs[i], party, id) && now <= vs[i].startTime <= now + UpcomingWindow ==>
               vs[i] in sections
    requires forall i :: 0 <= i < |shown| ==> shown[i] in sections
    requires forall i :: 0 <= i < |sections| ==>
               (sections[i] in shown <==> ConfirmedIn(t, sections[i].appointmentId))
    ensures forall i :: 0 <= i < |shown| ==> shown[i] in vs && Upcoming(shown[i], t, party, id, now)
    ensures forall i :: 0 <= i < |vs| && Upcoming(vs[i], t, party, id, now) ==> vs[i] in shown
  {
    forall i | 0 <= i < |shown| ensures shown[i] in vs && Upcoming(shown[i], t, party, id, now) {
      var j :| 0 <= j < |sections| && sections[j] == shown[i];
    }
    forall i | 0 <= i < |vs| && Upcoming(vs[i], t, party, id, now) ensures vs[i] in shown {
      var j :| 0 <= j < |sections| && sections[j] == vs[i];
    }
  }

  /** The `TypeError` that `section.appointmentId!.toString()` raises on a
      session without the path. */
  const AppointmentIdUnread: string := "Cannot read properties of undefined (reading 'toString')"

  /** `getSectionInOneDayLawyer` / `getSectionsInOneDayClient` as written:
      no stored session has an `appointmentId`, so reading the ids of a
      non-empty window throws, and an empty window answers no session. */
  function GetUpcomingSectionsAsWritten(vs: seq<VideoSection>, t: Appointments.Table, party: Party, id: string, now: int)
    : (r: Result<seq<VideoSection>>)
    ensures !Validators.IsIdText(id) ==> r == Err(Custom(BadRequest, Validators.IdMessage))
    ensures Validators.IsIdText(id) ==>
              (r.Ok? <==> forall i :: 0 <= i < |vs| ==> !(Of(vs[i], party, id) && now <= vs[i].startTime <= now + UpcomingWindow))
    ensures Validators.IsIdText(id) && r.Err? ==> r.error == Plain(AppointmentIdUnread)
    ensures r.Ok? ==> r.value == []
  {
    match Validators.ValidateIdFormat(id)
    case Fail(e) => Err(e)
    case Pass =>
      var sections := FindByStartTimeRange(vs, now, now + UpcomingWindow, party, id);
      if |sections| == 0 then Ok([]) else Err(Plain(AppointmentIdUnread))
  }

  /** A party with an upcoming confirmed session is shown it by the query
      over stored appointment ids, and is answered with the `TypeError` as
      written. */
  lemma UpcomingLostAsWritten(vs: seq<VideoSection>, t: Appointments.Table, party: Party, id: string, now: int, j: nat)
    requires Validators.IsIdText(id)
    requires j < |vs| && Upcoming(vs[j], t, party, id, now)
    ensures GetUpcomingSections(vs, t, party, id, now).Ok? && vs[j] in GetUpcomingSections(vs, t, party, id, now).value
    ensures GetUpcomingSectionsAsWritten(vs, t, party, id, now) == Err(Plain(AppointmentIdUnread))
  {
  }

  /** A session still to come that the lawyer has not held yet. */
  predicate Pending(v: VideoSection, lawyerId: string, now: int) {
    v.lawyerId == lawyerId && v.startTime >= now && v.status == SectionPending
  }

  /** `getSectionsByLawyerId` (`findAllSectionsByLawyerId` with a limit of
      ten): the first ten of the lawyer's pending sessions from now on, in
      store order. The id is not checked. */
  function GetSectionsByLawyerId(vs: seq<VideoSection>, lawyerId: string, now: int): (r: seq<VideoSection>)
    ensures |r| <= PendingLimit
    ensures forall i :: 0 <= i < |r| ==> r[i] in vs && Pending(r[i], lawyerId, now)
    ensures IsSubsequence(r, vs)
    ensures Count(vs, (v: VideoSection) => Pending(v, lawyerId, now)) <= PendingLimit ==>
              forall i :: 0 <= i < |vs| && Pending(vs[i], lawyerId, now) ==> vs[i] in r
    ensures |r| == Pagination.Min(PendingLimit, Count(vs, (v: VideoSection) => Pending(v, lawyerId, now)))
  {
    var pending := Filter(vs, (v: VideoSection) => Pending(v, lawyerId, now));
    FilterIsSubsequence(vs, (v: VideoSection) => Pending(v, lawyerId, now));
    var r := Pagination.Window(pending, 0, PendingLimit);
    assert r == pending[..|r|];
    PrefixIsSubsequence(pending, |r|);
    SubsequenceTransitive(r, pending, vs);
    r
  }

  // ---------------------------------------------------------------------
  // The lawyer's pending sessions as written: the bound is a text.

  /** Whether one text sorts before another as MongoDB compares strings:
      at the first position where they differ, or by being a proper
      prefix. */
  predicate TextBelow(a: string, b: string)
    decreases |a|
  {
    |b| > 0 && (|a| == 0 || a[0] < b[0] || (a[0] == b[0] && TextBelow(a[1..], b[1..])))
  }

  /** A start time as the booking stores it (`yyyy-MM-dd'T'HH:mm:ssXXX`)
      begins with the year's digits. */
  predicate DigitLed(s: string) {
    |s| > 0 && '0' <= s[0] <= '9'
  }

  /** The text a `Date` becomes when a string path casts it
      (`Date.prototype.toString`, such as "Sat Oct 10 2026 …") begins with
      the capital of the weekday's name. */
  predicate CapitalLed(s: string) {
    |s| > 0 && 'A' <= s[0] <= 'Z'
  }

  /** Every stored start time sorts below the cast current time. */
  lemma DigitsBelowCapitals(a: string, b: string)
    requires DigitLed(a) && CapitalLed(b)
    ensures TextBelow(a, b)
  {
  }

  /** `getSectionsByLawyerId` as written: the current `Date` goes to the
      query on the string path `startTime`, which casts it to its
      `toString` text. `text` is the booking's format of a start time and
      `nowText` the cast current time. No stored start time reaches the
      bound, so the lawyer is never shown a session. */
  function GetSectionsByLawyerIdAsWritten(vs: seq<VideoSection>, lawyerId: string, text: int -> string,
                                          nowText: string): (r: seq<VideoSection>)
    requires CapitalLed(nowText)
    requires forall i :: 0 <= i < |vs| ==> DigitLed(text(vs[i].startTime))
    ensures r == []
  {
    var p := (v: VideoSection) => v.lawyerId == lawyerId && !TextBelow(text(v.startTime), nowText) &&
                                  v.status == SectionPending;
    var pending := Filter(vs, p);
    assert pending == [] by {
      if pending != [] {
        var i :| 0 <= i < |vs| && vs[i] == pending[0];
        DigitsBelowCapitals(text(vs[i].startTime), nowText);
      }
    }
    Pagination.Window(pending, 0, PendingLimit)
  }

  /** A lawyer with a session still to come, pending, is shown at least
      one session by the query with a time bound, and none as written. */
  lemma PendingSessionsLostAsWritten(vs: seq<VideoSection>, lawyerId: string, now: int, text: int -> string,
                                     nowText: string, j: nat)
    requires CapitalLed(nowText)
    requires forall i :: 0 <= i < |vs| ==> DigitLed(text(vs[i].startTime))
    requires j < |vs| && Pending(vs[j], lawyerId, now)
    ensures |GetSectionsByLawyerId(vs, lawyerId, now)| > 0
    ensures GetSectionsByLawyerIdAsWritten(vs, lawyerId, text, nowText) == []
  {
    assert Count(vs, (v: VideoSection) => Pending(v, lawyerId, now)) > 0;
  }

  /** `getSectionById`: the id must be an id; the session with that id, if
      any. */
  function GetSectionById(vs: seq<VideoSection>, id: string): (r: Result<Option<VideoSection>>)
    ensures r.Err? <==> !Validators.IsIdText(id)
    ensures r.Ok? && r.value.Some? ==> r.value.value.id == id && r.value.value in vs
    ensures r.Ok? && r.value.None? ==> forall i :: 0 <= i < |vs| ==> vs[i].id != id
  {
    match Validators.ValidateIdFormat(id)
    case Fail(e) => Err(e)
    case Pass => Ok(FindSectionById(vs, id))
  }
}
