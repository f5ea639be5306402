/** Changing an appointment after it is booked (`UpdateAppointmentUseCase`):
    the lawyer's status change, the client's status and note change, the
    cancellation that follows either, and the completion of a session. */
module UpdateAppointment {

  import opened Outcome
  import opened Booking
  import Appointments
  import Validators

  const ConfirmedMessage: string :=
    "✅ Your appointment has been accepted! Please make sure to be available at the scheduled time."
  const CancelledMessage: string :=
    "🚫 Your appointment has been canceled. Your refund will be credited to your account in 10 working days. If you have any questions, please contact our support team."
  const LawyerCancelledMessage: string :=
    "🚫 The appointment has been canceled. The slot is now available for other clients."
  const InvalidRoomId: string := "Invalid Room Id"

  /** The notice the client receives when an appointment is cancelled. */
  function ClientCancelNotice(appointmentId: string, a: Appointments.Appointment): Notification {
    Notification(ToClient(a.clientId), AppointmentCanceled, CancelledMessage, Some(appointmentId))
  }

  /** The notice the lawyer receives when the client cancels. */
  function LawyerCancelNotice(appointmentId: string, a: Appointments.Appointment): Notification {
    Notification(ToLawyer(a.lawyerId), AppointmentCanceled, LawyerCancelledMessage, Some(appointmentId))
  }

  /** Some section of the appointment is cancelled. */
  predicate SectionCancelled(vs: seq<VideoSection>, appointmentId: string) {
    exists i :: 0 <= i < |vs| && vs[i].appointmentId == appointmentId && vs[i].status == Booking.SectionCancelled
  }

  /** `handleCancellation`: the client is told, the appointment's session is
      cancelled, the payment (if one is recorded for the appointment) is
      refunded in full, and, when the client cancelled, the lawyer is told.
      The appointments, slots and payments are left as they are: the slot
      stays booked. */
  function HandleCancellation(st: State, appointmentId: string, a: Appointments.Appointment, notifyLawyer: bool): (r: State)
    ensures r.appointments == st.appointments && r.slots == st.slots && r.payments == st.payments
    ensures notifyLawyer ==>
              r.notifications == st.notifications + [ClientCancelNotice(appointmentId, a), LawyerCancelNotice(appointmentId, a)]
    ensures !notifyLawyer ==> r.notifications == st.notifications + [ClientCancelNotice(appointmentId, a)]
    ensures |r.sections| == |st.sections|
    ensures forall i :: 0 <= i < |st.sections| && st.sections[i].appointmentId != appointmentId ==> r.sections[i] == st.sections[i]
    ensures (exists i :: 0 <= i < |st.sections| && st.sections[i].appointmentId == appointmentId) ==>
              SectionCancelled(r.sections, appointmentId)
    ensures FindPaymentByAppointmentId(st.payments, a.id).None? ==> r.refunds == st.refunds
    ensures FindPaymentByAppointmentId(st.payments, a.id).Some? ==>
              var p := FindPaymentByAppointmentId(st.payments, a.id).value;
              r.refunds == st.refunds + [Refund(p.transactionId, p.amount)] && p.appointmentId == Some(a.id)
  {
    var told := st.notifications + [ClientCancelNotice(appointmentId, a)];
    var sections := SetSectionStatusByAppointment(st.sections, appointmentId, Booking.SectionCancelled);
    assert (exists i :: 0 <= i < |st.sections| && st.sections[i].appointmentId == appointmentId) ==>
             SectionCancelled(sections, appointmentId) by {
      var hasAppointment := (v: VideoSection) => v.appointmentId == appointmentId;
      var k := Records.FirstIndex(st.sections, hasAppointment);
      if k < |st.sections| {
        assert sections[k] == st.sections[k].(status := Booking.SectionCancelled);
      }
    }
    var refunds := match FindPaymentByAppointmentId(st.payments, a.id)
                   case Some(p) => st.refunds + [Refund(p.transactionId, p.amount)]
                   case None => st.refunds;
    var notices := if notifyLawyer then told + [LawyerCancelNotice(appointmentId, a)] else told;
    st.(notifications := notices, sections := sections, refunds := refunds)
  }

  /** What a status change does once the appointment is written: cancelling
      runs the cancellation, confirming tells the client. */
  function AfterStatus(st: State, appointmentId: string, status: Appointments.Status, written: Option<Appointments.Appointment>,
                       notifyLawyer: bool): (r: State)
    ensures written.None? ==> r == st
    ensures written.Some? && status == Appointments.Cancelled ==>
              r == HandleCancellation(st, appointmentId, written.value, notifyLawyer)
    ensures written.Some? && status == Appointments.Confirmed && !notifyLawyer ==>
              r == st.(notifications := st.notifications +
                         [Notification(ToClient(written.value.clientId), AppointmentConfirmed, ConfirmedMessage, Some(appointmentId))])
    ensures status !in {Appointments.Cancelled, Appointments.Confirmed} ==> r == st
    ensures r.appointments == st.appointments && r.slots == st.slots && r.payments == st.payments
  {
    match written
    case None => st
    case Some(a) =>
      if status == Appointments.Cancelled then HandleCancellation(st, appointmentId, a, notifyLawyer)
      else if status == Appointments.Confirmed && !notifyLawyer then
        st.(notifications := st.notifications +
              [Notification(ToClient(a.clientId), AppointmentConfirmed, ConfirmedMessage, Some(appointmentId))])
      else st
  }

  /** `updateStatus`, by the lawyer: the status is required, the id must be
      an id and the status one of the statuses; the appointment takes the
      status, and then a cancellation or a confirmation follows. */
  function UpdateStatus(st: State, appointmentId: string, status: Option<string>): (r: Step<()>)
    ensures r.result.Ok? <==>
              status.Some? && Validators.IsIdText(appointmentId) && status.value in Appointments.StatusValues
    ensures r.result.Err? ==> r.state == st && r.result.error.Custom? && r.result.error.status == BadRequest
    ensures r.result.Ok? ==>
              var s := Appointments.ParseStatus(status.value).value;
              var u := Appointments.Update(st.appointments, appointmentId, Appointments.Patch(Some(s), None));
              Appointments.StatusText(s) == status.value &&
              r.state.appointments == u.table &&
              r.state == AfterStatus(st.(appointments := u.table), appointmentId, s, u.record, false)
    ensures r.state.slots == st.slots && r.state.payments == st.payments
  {
    var checks := Then(Validators.ValidateRequiredFields([true, status.Some?]),
                  Then(Validators.ValidateIdFormat(appointmentId),
                       if status.Some? then Validators.ValidateEnum(status.value, Appointments.StatusValues) else Pass));
    assert Validators.ValidateRequiredFields([true, status.Some?]).Pass? <==> status.Some? by {
      if !status.Some? {
        assert ![true, status.Some?][1];
      }
    }
    match checks
    case Fail(e) => Step(st, Err(e))
    case Pass =>
      var s := Appointments.ParseStatus(status.value).value;
      var u := Appointments.Update(st.appointments, appointmentId, Appointments.Patch(Some(s), None));
      Step(AfterStatus(st.(appointments := u.table), appointmentId, s, u.record, false), Ok(()))
  }

  /** The lawyer confirming a stored appointment confirms it and tells its
      client; the lawyer cancelling it tells only the client, not the
      lawyer. */
  lemma LawyerStatusNotices(st: State, appointmentId: string)
    requires Validators.IsIdText(appointmentId) && Appointments.FindById(st.appointments, appointmentId).Some?
    ensures var a := Appointments.FindById(st.appointments, appointmentId).value;
            var r := UpdateStatus(st, appointmentId, Some("confirmed"));
            r.result.Ok? &&
            Appointments.FindById(r.state.appointments, appointmentId) == Some(a.(status := Appointments.Confirmed)) &&
            r.state.notifications ==
              st.notifications + [Notification(ToClient(a.clientId), AppointmentConfirmed, ConfirmedMessage, Some(appointmentId))]
    ensures var a := Appointments.FindById(st.appointments, appointmentId).value;
            var r := UpdateStatus(st, appointmentId, Some("cancelled"));
            r.result.Ok? &&
            Appointments.FindById(r.state.appointments, appointmentId) == Some(a.(status := Appointments.Cancelled)) &&
            r.state.notifications ==
              st.notifications + [Notification(ToClient(a.clientId), AppointmentCanceled, CancelledMessage, Some(appointmentId))]
  {
    ConfirmNoticeToClient(st, appointmentId);
    CancelNoticeToClient(st, appointmentId);
  }

  lemma ConfirmNoticeToClient(st: State, appointmentId: string)
    requires Validators.IsIdText(appointmentId) && Appointments.FindById(st.appointments, appointmentId).Some?
    ensures var a := Appointments.FindById(st.appointments, appointmentId).value;
            var r := UpdateStatus(st, appointmentId, Some("confirmed"));
            r.result.Ok? &&
            Appointments.FindById(r.state.appointments, appointmentId) == Some(a.(status := Appointments.Confirmed)) &&
            r.state.notifications ==
              st.notifications + [Notification(ToClient(a.clientId), AppointmentConfirmed, ConfirmedMessage, Some(appointmentId))]
  {
    assert Appointments.ParseStatus("confirmed") == Some(Appointments.Confirmed);
  }

  lemma CancelNoticeToClient(st: State, appointmentId: string)
    requires Validators.IsIdText(appointmentId) && Appointments.FindById(st.appointments, appointmentId).Some?
    ensures var a := Appointments.FindById(st.appointments, appointmentId).value;
            var r := UpdateStatus(st, appointmentId, Some("cancelled"));
            r.result.Ok? &&
            Appointments.FindById(r.state.appointments, appointmentId) == Some(a.(status := Appointments.Cancelled)) &&
            r.state.notifications ==
              st.notifications + [Notification(ToClient(a.clientId), AppointmentCanceled, CancelledMessage, Some(appointmentId))]
  {
    assert Appointments.ParseStatus("cancelled") == Some(Appointments.Cancelled);
  }

  /** `updateStatusAndNote`, by the client: the status and the notes are
      required and the status must be one of the statuses (the id is not
      checked); the appointment takes both, and a cancellation also tells
      the lawyer. */
  function UpdateStatusAndNote(st: State, appointmentId: string, status: Option<string>, notes: Option<string>): (r: Step<()>)
    ensures r.result.Ok? <==> status.Some? && notes.Some? && status.value in Appointments.StatusValues
    ensures r.result.Err? ==> r.state == st && r.result.error.Custom? && r.result.error.status == BadRequest
    ensures r.result.Ok? ==>
              var s := Appointments.ParseStatus(status.value).value;
              var u := Appointments.Update(st.appointments, appointmentId, Appointments.Patch(Some(s), notes));
              Appointments.StatusText(s) == status.value &&
              r.state.appointments == u.table &&
              r.state == AfterStatus(st.(appointments := u.table), appointmentId, s, u.record, true)
    ensures r.state.slots == st.slots && r.state.payments == st.payments
  {
    var required := Validators.ValidateRequiredFields([true, status.Some?, notes.Some?]);
    assert required.Pass? <==> status.Some? && notes.Some? by {
      if !status.Some? {
        assert ![true, status.Some?, notes.Some?][1];
      }
      if !notes.Some? {
        assert ![true, status.Some?, notes.Some?][2];
      }
    }
    var checks := Then(required, if status.Some? then Validators.ValidateEnum(status.value, Appointments.StatusValues) else Pass);
    match checks
    case Fail(e) => Step(st, Err(e))
    case Pass =>
      var s := Appointments.ParseStatus(status.value).value;
      var u := Appointments.Update(st.appointments, appointmentId, Appointments.Patch(Some(s), notes));
      Step(AfterStatus(st.(appointments := u.table), appointmentId, s, u.record, true), Ok(()))
  }

  /** `updateCompleteSection`: an unknown room is an error; once the
      session's start time has come, its appointment and the session itself
      are completed; before that nothing changes. */
  function UpdateCompleteSection(st: State, roomId: string, now: int): (r: Step<()>)
    ensures FindSectionByRoomId(st.sections, roomId).None? <==> r.result.Err?
    ensures r.result.Err? ==> r == Step(st, Err(Plain(InvalidRoomId)))
    ensures r.result.Ok? && now < FindSectionByRoomId(st.sections, roomId).value.startTime ==> r.state == st
    ensures r.result.Ok? && now >= FindSectionByRoomId(st.sections, roomId).value.startTime ==>
              var v := FindSectionByRoomId(st.sections, roomId).value;
              (Appointments.FindById(st.appointments, v.appointmentId).Some? ==>
                 Appointments.FindById(r.state.appointments, v.appointmentId) ==
                   Some(Appointments.FindById(st.appointments, v.appointmentId).value.(status := Appointments.Completed))) &&
              (exists i :: 0 <= i < |r.state.sections| && r.state.sections[i].id == v.id &&
                           r.state.sections[i].status == SectionCompleted)
    ensures r.state.slots == st.slots && r.state.payments == st.payments &&
            r.state.notifications == st.notifications && r.state.refunds == st.refunds
  {
    match FindSectionByRoomId(st.sections, roomId)
    case None => Step(st, Err(Plain(InvalidRoomId)))
    case Some(v) =>
      if now >= v.startTime then
        var u := Appointments.Update(st.appointments, v.appointmentId, Appointments.Patch(Some(Appointments.Completed), None));
        var sections := SetSectionStatus(st.sections, v.id, SectionCompleted);
        assert exists i :: 0 <= i < |sections| && sections[i].id == v.id && sections[i].status == SectionCompleted by {
          var k := Records.FirstIndex(st.sections, (w: VideoSection) => w.id == v.id);
          assert v in st.sections;
          assert k < |st.sections|;
          assert sections[k] == st.sections[k].(status := SectionCompleted);
        }
        Step(st.(appointments := u.table, sections := sections), Ok(()))
      else Step(st, Ok(()))
  }

  // ---------------------------------------------------------------------
  // As written: the session schema stores neither `appointmentId` nor
  // `roomId`, so the lookups and updates by them do not find the session
  // they name. `q` is how the store treats the undeclared path.

  /** `handleCancellation` as written: the notices and the refund are as
      above, but the session update goes by an appointment id no session
      stores, so it cancels the first session of the collection, or none. */
  function HandleCancellationAsWritten(st: State, appointmentId: string, a: Appointments.Appointment, notifyLawyer: bool,
                                       q: Records.StrictQuery): (r: State)
    ensures r == HandleCancellation(st, appointmentId, a, notifyLawyer).(sections := r.sections)
    ensures |r.sections| == |st.sections|
    ensures forall i :: 0 < i < |st.sections| ==> r.sections[i] == st.sections[i]
    ensures q == Records.KeepsPath ==> r.sections == st.sections
  {
    HandleCancellation(st, appointmentId, a, notifyLawyer)
      .(sections := SetSectionStatusByAppointmentAsWritten(st.sections, appointmentId, Booking.SectionCancelled, q))
  }

  /** When the cancelled appointment's session is not the first of the
      collection, the cancellation by appointment cancels it, and the one
      as written leaves it pending and, with the condition dropped, cancels
      another appointment's session instead. */
  lemma CancellationMissesOwnSessionAsWritten(st: State, appointmentId: string, a: Appointments.Appointment,
                                              notifyLawyer: bool, q: Records.StrictQuery, k: nat)
    requires 0 < k < |st.sections| && st.sections[k].appointmentId == appointmentId
    requires st.sections[k].status == SectionPending
    requires forall j :: 0 <= j < k ==> st.sections[j].appointmentId != appointmentId
    ensures HandleCancellation(st, appointmentId, a, notifyLawyer).sections[k].status == Booking.SectionCancelled
    ensures HandleCancellationAsWritten(st, appointmentId, a, notifyLawyer, q).sections[k] == st.sections[k]
    ensures q == Records.DropsPath ==>
              st.sections[0].appointmentId != appointmentId &&
              HandleCancellationAsWritten(st, appointmentId, a, notifyLawyer, q).sections[0].status == Booking.SectionCancelled
  {
    OwnSectionMissedAsWritten(st.sections, appointmentId, Booking.SectionCancelled, q, k);
  }

  /** The appointment table after `findByIdAndUpdate(undefined, {status:
      completed})`: a filter `{ _id: undefined }` is treated as `{}`, so
      the first appointment of the collection is completed. */
  function CompleteFirst(t: Appointments.Table): (r: Appointments.Table)
    ensures |r| == |t|
    ensures forall i :: 0 < i < |t| ==> r[i] == t[i]
    ensures |t| > 0 ==> r[0] == t[0].(status := Appointments.Completed)
  {
    if |t| > 0 then t[0 := t[0].(status := Appointments.Completed)] else t
  }

  /** `updateCompleteSection` as written: the room lookup finds the first
      session of the collection, or none; `room.appointmentId` is absent,
      so `findById` of it finds nothing and the update by the absent id
      completes the first appointment of the collection, whichever it is;
      the session found is completed. */
  function UpdateCompleteSectionAsWritten(st: State, roomId: string, now: int, q: Records.StrictQuery): (r: Step<()>)
    ensures r.result.Err? <==> q == Records.KeepsPath || |st.sections| == 0
    ensures r.result.Err? ==> r == Step(st, Err(Plain(InvalidRoomId)))
    ensures r.result.Ok? && now < st.sections[0].startTime ==> r.state == st
    ensures r.result.Ok? && now >= st.sections[0].startTime ==>
              r.state.sections == st.sections[0 := st.sections[0].(status := SectionCompleted)] &&
              r.state.appointments == CompleteFirst(st.appointments)
    ensures r.state.slots == st.slots && r.state.payments == st.payments &&
            r.state.notifications == st.notifications && r.state.refunds == st.refunds
  {
    match FindSectionByRoomIdAsWritten(st.sections, roomId, q)
    case None => Step(st, Err(Plain(InvalidRoomId)))
    case Some(v) =>
      if now >= v.startTime then
        Records.FirstIndexIs(st.sections, (w: VideoSection) => w.id == v.id, 0);
        Step(st.(appointments := CompleteFirst(st.appointments),
                 sections := SetSectionStatus(st.sections, v.id, SectionCompleted)), Ok(()))
      else Step(st, Ok(()))
  }

  /** When neither the room's session nor its appointment is the first of
      its collection, completing the room completes both, and completing it
      as written completes neither. */
  lemma RoomNotCompletedAsWritten(st: State, roomId: string, now: int, q: Records.StrictQuery, k: nat, m: nat)
    requires 0 < k < |st.sections| && st.sections[k].roomId == roomId
    requires forall j :: 0 <= j < k ==> st.sections[j].roomId != roomId
    requires st.sections[k].status != SectionCompleted && now >= st.sections[k].startTime
    requires 0 < m < |st.appointments| && st.appointments[m].id == st.sections[k].appointmentId
    requires forall j :: 0 <= j < m ==> st.appointments[j].id != st.sections[k].appointmentId
    requires st.appointments[m].status != Appointments.Completed
    ensures UpdateCompleteSection(st, roomId, now).state.appointments[m].status == Appointments.Completed
    ensures UpdateCompleteSectionAsWritten(st, roomId, now, q).state.appointments[m] == st.appointments[m]
    ensures UpdateCompleteSectionAsWritten(st, roomId, now, q).state.sections[k] == st.sections[k]
  {
    Records.FirstIndexIs(st.sections, (v: VideoSection) => v.roomId == roomId, k);
    Records.FirstIndexIs(st.appointments, (a: Appointments.Appointment) => a.id == st.sections[k].appointmentId, m);
  }
}
