/** An appointment's life across the use cases: booked and waiting for its
    payment, confirmed by the gateway's webhook, cancelled with a refund;
    and what a cancellation does, and does not do, to the slot. */
module Lifecycle {

  import opened Outcome
  import opened Booking
  import Appointments
  import SlotStore
  import opened CreateAppointment
  import UpdateAppointment

  /** The ids a booking hands out are new to the store. */
  predicate FreshIn(st: State, ids: Fresh) {
    (forall i :: 0 <= i < |st.payments| ==> st.payments[i].id != ids.paymentId &&
                                              st.payments[i].appointmentId != Some(ids.appointmentId)) &&
    (forall i :: 0 <= i < |st.appointments| ==> st.appointments[i].id != ids.appointmentId)
  }

  /** A record added after the others, with an id none of them has, is the
      one a lookup by that id finds. */
  lemma PaymentFoundAtEnd(before: seq<Payment>, ps: seq<Payment>, id: string)
    requires |ps| == |before| + 1 && ps[..|before|] == before && ps[|before|].id == id
    requires forall i :: 0 <= i < |before| ==> before[i].id != id
    ensures FindPayment(ps, id) == Some(ps[|before|])
  {
    assert forall i :: 0 <= i < |before| ==> ps[i] == before[i];
  }

  lemma PaymentOfAppointmentAtEnd(before: seq<Payment>, q: Payment, appointmentId: string)
    requires q.appointmentId == Some(appointmentId)
    requires forall i :: 0 <= i < |before| ==> before[i].appointmentId != Some(appointmentId)
    ensures FindPaymentByAppointmentId(before + [q], appointmentId) == Some(q)
  {
    var ps := before + [q];
    assert ps[|before|] == q;
    var r := FindPaymentByAppointmentId(ps, appointmentId);
    var k :| 0 <= k < |ps| && ps[k] == r.value;
  }

  lemma AppointmentFoundAtEnd(before: Appointments.Table, t: Appointments.Table, id: string)
    requires |t| == |before| + 1 && t[..|before|] == before && t[|before|].id == id
    requires forall i :: 0 <= i < |before| ==> before[i].id != id
    ensures Appointments.FindById(t, id) == Some(t[|before|])
  {
    assert forall i :: 0 <= i < |before| ==> t[i] == before[i];
  }

  /** Booking and then the gateway's webhook for the new payment: the
      payment is completed and the appointment confirmed. */
  lemma {:induction false} PaidBookingIsConfirmed(st: State, svc: Services, ids: Fresh, a: AppointmentInput, clientId: string,
                                                  now: int, fx: Fixes, event: WebhookEvent)
    requires ExecWith(st, svc, ids, a, clientId, now, fx).result.Ok?
    requires FreshIn(st, ids)
    requires event.hasObject && event.paymentId == Some(ids.paymentId) && ids.paymentId != ""
    ensures var booked := ExecWith(st, svc, ids, a, clientId, now, fx).state;
            var paid := HandleStripeWebhook(booked, Ok(event));
            paid.result.Ok? &&
            Appointments.FindById(paid.state.appointments, ids.appointmentId) ==
              Some(Booked(svc, ids, a, clientId, now).(status := Appointments.Confirmed)) &&
            FindPayment(paid.state.payments, ids.paymentId).value.status == PaymentCompleted
  {
    var booked := ExecWith(st, svc, ids, a, clientId, now, fx).state;
    PaymentFoundAtEnd(st.payments, booked.payments, ids.paymentId);
    assert booked.appointments == st.appointments + [Booked(svc, ids, a, clientId, now)];
    AppointmentFoundAtEnd(st.appointments, booked.appointments, ids.appointmentId);
  }

  /** A booking waiting for its payment shows in neither the client's nor
      the lawyer's listing. */
  lemma UnpaidBookingNotListed(st: State, svc: Services, ids: Fresh, a: AppointmentInput, clientId: string, now: int,
                               fx: Fixes, anyClient: string, anyLawyer: string, offset: nat, limit: nat,
                               status: Option<string>)
    requires ExecWith(st, svc, ids, a, clientId, now, fx).result.Ok?
    ensures var booked := ExecWith(st, svc, ids, a, clientId, now, fx).state;
            Appointments.FindManyByClientId(booked.appointments, anyClient, offset, limit, status) ==
              Appointments.FindManyByClientId(st.appointments, anyClient, offset, limit, status) &&
            Appointments.FindManyByLawyerId(booked.appointments, anyLawyer, offset, limit, status) ==
              Appointments.FindManyByLawyerId(st.appointments, anyLawyer, offset, limit, status)
  {
    Appointments.UnpaidNotListed(st.appointments, Booked(svc, ids, a, clientId, now), anyClient, anyLawyer, offset, limit, status);
  }

  /** The payment a booking records, once the checkout session is open. */
  function Opened(svc: Services, ids: Fresh, now: int): Payment
    requires svc.checkout(Request(svc, ids.paymentId)).Ok?
  {
    Payment(ids.paymentId, svc.checkout(Request(svc, ids.paymentId)).value.id, Some(ids.appointmentId),
            BookingAmount, Currency, PaymentOpen, None, now)
  }

  /** What a successful booking leaves behind: one new appointment, one new
      payment, and a session for the appointment. */
  lemma BookingRecords(st: State, svc: Services, ids: Fresh, a: AppointmentInput, clientId: string, now: int)
    requires Exec(st, svc, ids, a, clientId, now).result.Ok?
    ensures var booked := Exec(st, svc, ids, a, clientId, now).state;
            Complete(a) && svc.checkout(Request(svc, ids.paymentId)).Ok? &&
            booked.appointments == st.appointments + [Booked(svc, ids, a, clientId, now)] &&
            booked.payments == st.payments + [Opened(svc, ids, now)] &&
            booked.refunds == st.refunds && |booked.notifications| == |st.notifications| &&
            exists i :: 0 <= i < |booked.sections| && booked.sections[i].appointmentId == ids.appointmentId
  {
    var booked := Exec(st, svc, ids, a, clientId, now).state;
    assert booked.payments == booked.payments[..|st.payments|] + [booked.payments[|st.payments|]];
    assert booked.sections[|st.sections|].appointmentId == ids.appointmentId;
  }

  /** The webhook for the newest payment completes it in place and records
      the charge. */
  lemma WebhookCompletesNewest(s: State, before: seq<Payment>, p: Payment, event: WebhookEvent)
    requires s.payments == before + [p] && forall i :: 0 <= i < |before| ==> before[i].id != p.id
    requires event.hasObject && event.paymentId == Some(p.id) && p.id != "" && event.kind == ChargeType
    ensures var paid := HandleStripeWebhook(s, Ok(event)).state;
            paid.payments == before + [p.(status := PaymentCompleted, transactionId := Some(event.transactionId))] &&
            paid.sections == s.sections && paid.refunds == s.refunds && paid.notifications == s.notifications &&
            (p.appointmentId.Some? ==> paid.appointments == Appointments.Confirm(s.appointments, p.appointmentId.value))
  {
    PaymentFoundAtEnd(before, s.payments, p.id);
    var paid := HandleStripeWebhook(s, Ok(event)).state;
    var q := p.(status := PaymentCompleted, transactionId := Some(event.transactionId));
    assert FindPayment(paid.payments, p.id) == Some(q);
    forall i | 0 <= i < |before| ensures paid.payments[i] == before[i] {
      assert s.payments[i] == before[i];
    }
    var k :| 0 <= k < |paid.payments| && paid.payments[k] == q;
    assert paid.payments == before + [q];
  }

  /** The client cancelling an appointment with a recorded payment: the
      refund is asked for that payment's charge and amount, the session is
      cancelled and both parties are told. */
  lemma ClientCancelRefunds(s: State, appointmentId: string, notes: string)
    requires Appointments.FindById(s.appointments, appointmentId).Some?
    requires FindPaymentByAppointmentId(s.payments, appointmentId).Some?
    requires exists i :: 0 <= i < |s.sections| && s.sections[i].appointmentId == appointmentId
    ensures var q := FindPaymentByAppointmentId(s.payments, appointmentId).value;
            var cancelled := UpdateAppointment.UpdateStatusAndNote(s, appointmentId, Some("cancelled"), Some(notes));
            cancelled.result.Ok? &&
            cancelled.state.refunds == s.refunds + [Refund(q.transactionId, q.amount)] &&
            UpdateAppointment.SectionCancelled(cancelled.state.sections, appointmentId) &&
            |cancelled.state.notifications| == |s.notifications| + 2
  {
    assert Appointments.ParseStatus("cancelled") == Some(Appointments.Cancelled);
    var u := Appointments.Update(s.appointments, appointmentId, Appointments.Patch(Some(Appointments.Cancelled), Some(notes)));
    assert u.record.Some? && u.record.value.id == appointmentId;
  }

  /** Booking, paying and then cancelling as the client: the gateway is
      asked to refund the whole booking amount on the recorded charge, the
      session is cancelled, and both parties are told. */
  lemma CancelRefundsBooking(st: State, svc: Services, ids: Fresh, a: AppointmentInput, clientId: string,
                             now: int, event: WebhookEvent, notes: string)
    requires Exec(st, svc, ids, a, clientId, now).result.Ok?
    requires FreshIn(st, ids)
    requires event.hasObject && event.paymentId == Some(ids.paymentId) && ids.paymentId != "" && event.kind == ChargeType
    ensures var booked := Exec(st, svc, ids, a, clientId, now).state;
            var paid := HandleStripeWebhook(booked, Ok(event)).state;
            var cancelled := UpdateAppointment.UpdateStatusAndNote(paid, ids.appointmentId, Some("cancelled"), Some(notes));
            cancelled.result.Ok? &&
            cancelled.state.refunds == st.refunds + [Refund(Some(event.transactionId), BookingAmount)] &&
            UpdateAppointment.SectionCancelled(cancelled.state.sections, ids.appointmentId) &&
            |cancelled.state.notifications| == |st.notifications| + 2
  {
    BookingRecords(st, svc, ids, a, clientId, now);
    var booked := Exec(st, svc, ids, a, clientId, now).state;
    var p := Opened(svc, ids, now);
    WebhookCompletesNewest(booked, st.payments, p, event);
    var paid := HandleStripeWebhook(booked, Ok(event)).state;
    var q := p.(status := PaymentCompleted, transactionId := Some(event.transactionId));
    AppointmentFoundAtEnd(st.appointments, booked.appointments, ids.appointmentId);
    assert Appointments.FindById(paid.appointments, ids.appointmentId).Some?;
    PaymentOfAppointmentAtEnd(st.payments, q, ids.appointmentId);
    ClientCancelRefunds(paid, ids.appointmentId, notes);
  }

  /** As written, the session a booking stores keeps no appointment id, so
      a later cancellation does not reach it: with another appointment's
      session stored first, the cancellation by a stored appointment id
      cancels the booking's session, and the one as written leaves it
      pending. */
  lemma BookedSessionKeptAsWritten(st: State, svc: Services, ids: Fresh, a: AppointmentInput, clientId: string,
                                   now: int, q: Records.StrictQuery)
    requires Exec(st, svc, ids, a, clientId, now).result.Ok?
    requires |st.sections| > 0 && forall j :: 0 <= j < |st.sections| ==> st.sections[j].appointmentId != ids.appointmentId
    ensures var booked := Exec(st, svc, ids, a, clientId, now).state;
            var made := Booked(svc, ids, a, clientId, now);
            var k := |st.sections|;
            k < |booked.sections| && booked.sections[k].appointmentId == ids.appointmentId &&
            UpdateAppointment.HandleCancellation(booked, ids.appointmentId, made, true).sections[k].status == SectionCancelled &&
            UpdateAppointment.HandleCancellationAsWritten(booked, ids.appointmentId, made, true, q).sections[k].status == SectionPending
  {
    BookingRecords(st, svc, ids, a, clientId, now);
    var booked := Exec(st, svc, ids, a, clientId, now).state;
    var k := |st.sections|;
    assert forall j :: 0 <= j < k ==> booked.sections[j] == st.sections[j];
    UpdateAppointment.CancellationMissesOwnSessionAsWritten(booked, ids.appointmentId, Booked(svc, ids, a, clientId, now), true, q, k);
  }

  // ---------------------------------------------------------------------
  // Cancelling does not release the slot.

  /** The slot and date a request asks for. */
  function SlotOf(a: AppointmentInput): string requires a.slotId.Some? { a.slotId.value }

  /** As written: the slot schema stores no status, so the slot check
      never refuses. Once one client has booked a slot for a date, another
      client's request for the same slot and date succeeds too, and both
      appointments stand, neither of them cancelled. */
  lemma DoubleBookedAsWritten(st: State, svc: Services, ids: Fresh, later: Fresh, a: AppointmentInput, clientId: string,
                              other: string, now: int, afterwards: int)
    requires Exec(st, svc, ids, a, clientId, now).result.Ok?
    requires WellFormed(a, other, svc.isIsoDate) && svc.findClient(other).Some? && svc.findClient(other).value.hasAddress
    requires svc.checkout(Request(svc, later.paymentId)).Ok? && Startable(st, svc, a)
    ensures var booked := Exec(st, svc, ids, a, clientId, now).state;
            var again := Exec(booked, svc, later, a, other, afterwards);
            again.result.Ok? &&
            again.state.appointments ==
              st.appointments + [Booked(svc, ids, a, clientId, now), Booked(svc, later, a, other, afterwards)]
  {
    BookingRecords(st, svc, ids, a, clientId, now);
    var booked := Exec(st, svc, ids, a, clientId, now).state;
    assert Ready(booked, svc, a, other);
    BookingRecords(booked, svc, later, a, other, afterwards);
  }

  /** Corrected: with the status stored, a slot booked for a date by an
      appointment still live is refused to every later request for that
      date as already booked. */
  lemma SecondBookingRefused(st: State, svc: Services, ids: Fresh, later: Fresh, a: AppointmentInput, clientId: string,
                             other: string, now: int, afterwards: int)
    requires BookReleased(st, svc, ids, a, clientId, now).result.Ok?
    requires WellFormed(a, other, svc.isIsoDate) && svc.findClient(other).Some? && svc.findClient(other).value.hasAddress
    ensures var booked := BookReleased(st, svc, ids, a, clientId, now).state;
            BookReleased(booked, svc, later, a, other, afterwards) == Step(booked, Err(Custom(Conflict, SlotAlreadyBooked)))
  {
    ReleasedBookingRecords(st, svc, ids, a, clientId, now);
    var booked := BookReleased(st, svc, ids, a, clientId, now).state;
    var at := svc.toTime(a.appointmentDate.value);
    var held := booked.appointments[|st.appointments|];
    assert held.slotId == a.slotId.value && held.appointmentDate == at && held.status != Appointments.Cancelled;
    NoLiveBookingIff(booked.appointments, a.slotId.value, at);
    ExecRefusals(booked, svc, later, a, other, afterwards, Fixes(true, true));
  }

  /** With the status stored but the slot search as written: once a
      booking for a slot on a date has been made and cancelled, the same
      slot on the same date is refused to every client as already booked,
      though the cancellation tells the lawyer the slot is free again. */
  lemma CancelledSlotStaysTaken(st: State, svc: Services, ids: Fresh, later: Fresh, a: AppointmentInput, clientId: string,
                                other: string, notes: string, now: int, afterwards: int)
    requires BookKeepingStatus(st, svc, ids, a, clientId, now).result.Ok?
    requires WellFormed(a, other, svc.isIsoDate) && svc.findClient(other).Some? && svc.findClient(other).value.hasAddress
    ensures var booked := BookKeepingStatus(st, svc, ids, a, clientId, now).state;
            var cancelled := UpdateAppointment.UpdateStatusAndNote(booked, ids.appointmentId, Some("cancelled"), Some(notes));
            cancelled.result.Ok? &&
            BookKeepingStatus(cancelled.state, svc, later, a, other, afterwards) ==
              Step(cancelled.state, Err(Custom(Conflict, SlotAlreadyBooked)))
  {
    var booked := BookKeepingStatus(st, svc, ids, a, clientId, now).state;
    var at := svc.toTime(a.appointmentDate.value);
    assert booked.appointments == st.appointments + [Booked(svc, ids, a, clientId, now)];
    CancelKeepsHold(booked, ids.appointmentId, notes, a.slotId.value, at, |st.appointments|);
    var s2 := UpdateAppointment.UpdateStatusAndNote(booked, ids.appointmentId, Some("cancelled"), Some(notes)).state;
    ExecRefusals(s2, svc, later, a, other, afterwards, Fixes(true, false));
  }

  /** Cancelling leaves the slots alone, and an appointment holding a slot
      on a date, cancelled or not, still holds it for the search. */
  lemma CancelKeepsHold(s: State, id: string, notes: string, slotId: string, at: int, k: nat)
    requires k < |s.appointments| && s.appointments[k].slotId == slotId && s.appointments[k].appointmentDate == at
    ensures var c := UpdateAppointment.UpdateStatusAndNote(s, id, Some("cancelled"), Some(notes));
            c.result.Ok? && c.state.slots == s.slots &&
            Appointments.FindByDateAndSlot(c.state.appointments, at, slotId).Some?
  {
    assert Appointments.ParseStatus("cancelled") == Some(Appointments.Cancelled);
    var c := UpdateAppointment.UpdateStatusAndNote(s, id, Some("cancelled"), Some(notes));
    var u := Appointments.Update(s.appointments, id, Appointments.Patch(Some(Appointments.Cancelled), Some(notes)));
    assert c.state.appointments == u.table;
    assert u.table[k].slotId == slotId && u.table[k].appointmentDate == at;
  }

  /** What a successful corrected booking leaves behind: the request was in
      order, one new appointment, and the slot booked. */
  lemma ReleasedBookingRecords(st: State, svc: Services, ids: Fresh, a: AppointmentInput, clientId: string, now: int)
    requires BookReleased(st, svc, ids, a, clientId, now).result.Ok?
    ensures var booked := BookReleased(st, svc, ids, a, clientId, now).state;
            Ready(st, svc, a, clientId) &&
            booked.appointments == st.appointments + [Booked(svc, ids, a, clientId, now)] &&
            SlotStore.FindById(booked.slots, a.slotId.value) ==
              Some(SlotStore.FindById(st.slots, a.slotId.value).value.(booked := true))
  {
  }

  /** The client cancelling the newest appointment, whose id no other one
      has, marks exactly that one cancelled and leaves the slots alone. */
  lemma ClientCancelsNewest(s: State, before: Appointments.Table, newest: Appointments.Appointment, notes: string)
    requires s.appointments == before + [newest]
    requires forall i :: 0 <= i < |before| ==> before[i].id != newest.id
    ensures var cancelled := UpdateAppointment.UpdateStatusAndNote(s, newest.id, Some("cancelled"), Some(notes));
            cancelled.result.Ok? && cancelled.state.slots == s.slots &&
            cancelled.state.appointments == before + [newest.(status := Appointments.Cancelled, notes := Some(notes))]
  {
    assert Appointments.ParseStatus("cancelled") == Some(Appointments.Cancelled);
    var t := Appointments.Update(s.appointments, newest.id, Appointments.Patch(Some(Appointments.Cancelled), Some(notes))).table;
    forall i | 0 <= i < |before| ensures t[i] == before[i] {
      assert s.appointments[i] == before[i];
    }
    assert s.appointments[|before|] == newest;
    assert t == before + [newest.(status := Appointments.Cancelled, notes := Some(notes))];
  }

  /** Corrected: with cancelled appointments left out of the search, the
      slot a client cancelled can be booked again on that date by any
      client whose request is otherwise in order. */
  lemma CancelledSlotReleased(st: State, svc: Services, ids: Fresh, later: Fresh, a: AppointmentInput, clientId: string,
                              other: string, notes: string, now: int, afterwards: int)
    requires BookReleased(st, svc, ids, a, clientId, now).result.Ok?
    requires forall i :: 0 <= i < |st.appointments| ==> st.appointments[i].id != ids.appointmentId
    requires NoLiveBooking(st.appointments, a.slotId.value, svc.toTime(a.appointmentDate.value))
    requires WellFormed(a, other, svc.isIsoDate) && svc.findClient(other).Some? && svc.findClient(other).value.hasAddress
    requires svc.checkout(Request(svc, later.paymentId)).Ok? && Startable(st, svc, a)
    ensures var booked := BookReleased(st, svc, ids, a, clientId, now).state;
            var cancelled := UpdateAppointment.UpdateStatusAndNote(booked, ids.appointmentId, Some("cancelled"), Some(notes));
            cancelled.result.Ok? &&
            BookReleased(cancelled.state, svc, later, a, other, afterwards).result.Ok?
  {
    ReleasedBookingRecords(st, svc, ids, a, clientId, now);
    var booked := BookReleased(st, svc, ids, a, clientId, now).state;
    var newA := Booked(svc, ids, a, clientId, now);
    ClientCancelsNewest(booked, st.appointments, newA, notes);
    var s2 := UpdateAppointment.UpdateStatusAndNote(booked, ids.appointmentId, Some("cancelled"), Some(notes)).state;
    var gone := newA.(status := Appointments.Cancelled, notes := Some(notes));
    assert s2.appointments == st.appointments + [gone];
    NoLiveBookingKept(st.appointments, gone, a.slotId.value, svc.toTime(a.appointmentDate.value));
    assert Ready(s2, svc, a, other);
  }

  /** A cancelled appointment added to the table leaves the slot free. */
  lemma NoLiveBookingKept(t: Appointments.Table, x: Appointments.Appointment, slotId: string, at: int)
    requires NoLiveBooking(t, slotId, at) && x.status == Appointments.Cancelled
    ensures NoLiveBooking(t + [x], slotId, at)
  {
    assert forall i :: 0 <= i < |t| ==> (t + [x])[i] == t[i];
  }
}
