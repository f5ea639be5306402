/** Booking an appointment (`CreateAppointmentUseCase`): the input checks,
    the slot lock, the payment and checkout session, the appointment waiting
    for its payment, the video session; and the gateway's webhook that
    completes the payment and confirms the appointment.

    The gateway, the lookups of the client and the lawyer, the date parsing
    and fresh ids are parameters. */
module CreateAppointment {

  import opened Outcome
  import opened Records
  import opened Booking
  import Appointments
  import SlotStore
  import Slots
  import Validators

  /** `bookingAmount`, in rupees. */
  const BookingAmount: int := 300
  const Currency: string := "INR"

  /** The length of a session, in milliseconds (60 minutes). */
  const SessionLength: int := 60 * 60000

  const PartyNotFound: string := "Client or Lawyer Not Found"
  const SlotNotFound: string := "Slot Not Found"
  const ProfileMissing: string := "Profile is missing"
  const SlotAlreadyBooked: string := "Slot already booked"

  /** The `RangeError` date-fns' `format` throws on an invalid date. */
  const InvalidTime: string := "Invalid time value"

  /** The webhook type whose transaction id is the charge to record. */
  const ChargeType: string := "charge"

  /** A booking request as the body carries it; any field may be missing. */
  datatype AppointmentInput = AppointmentInput(
    lawyerId: Option<string>,
    slotId: Option<string>,
    appointmentType: Option<string>,
    appointmentDate: Option<string>,
    reason: Option<string>,
    notes: Option<string>)

  /** What the use case needs to know of the client or the lawyer. */
  datatype Party = Party(id: string, name: string, hasAddress: bool)

  /** The checkout session requested from the gateway. */
  datatype CheckoutRequest = CheckoutRequest(amount: int, currency: string, successUrl: string, cancelUrl: string, paymentId: string)

  datatype Session = Session(id: string, url: string)

  /** The services the use case calls: lookups, the gateway, Joi's ISO date
      check, the cast of a date text to epoch milliseconds, the start of a
      session read by date-fns from the date text and the slot's `hh:mm a`
      text (`None` where date-fns yields an invalid date, on which `format`
      throws), and the client application's base URL. */
  datatype Services = Services(
    findClient: string -> Option<Party>,
    findLawyer: string -> Option<Party>,
    checkout: CheckoutRequest -> Result<Session>,
    isIsoDate: string -> bool,
    toTime: string -> int,
    sessionStart: (string, string) -> Option<int>,
    clientUrl: string)

  /** The ids the store and the id service hand out for the new records. */
  datatype Fresh = Fresh(paymentId: string, appointmentId: string, sectionId: string, roomId: string)

  /** What the caller receives: the session id and the checkout URL. */
  datatype Checkout = Checkout(sessionId: string, checkoutUrl: string)

  /** Whether the request carries every required field. */
  predicate Complete(a: AppointmentInput) {
    a.slotId.Some? && a.appointmentType.Some? && a.lawyerId.Some? && a.reason.Some? && a.appointmentDate.Some?
  }

  /** The plain meaning of the input checks. */
  predicate WellFormed(a: AppointmentInput, clientId: string, isIsoDate: string -> bool) {
    Complete(a) &&
    Validators.IsIdText(a.lawyerId.value) && Validators.IsIdText(a.slotId.value) && Validators.IsIdText(clientId) &&
    a.appointmentType.value in Appointments.TypeValues &&
    isIsoDate(a.appointmentDate.value) &&
    1 <= |a.reason.value| <= 500 &&
    (Truthy(a.notes) ==> |a.notes.value| <= 500)
  }

  /** `validateAppointmentData`: required fields, then the three ids, the
      type, the date, the reason's length and, when notes are given, their
      length; each failure is a 400. */
  function ValidateAppointmentData(a: AppointmentInput, clientId: string, isIsoDate: string -> bool): (c: Check)
    ensures c.Pass? <==> WellFormed(a, clientId, isIsoDate)
    ensures c.Fail? ==> c.error.Custom? && c.error.status == BadRequest
    ensures !Complete(a) ==> c == Fail(Custom(BadRequest, Validators.RequiredMessage))
  {
    var flags := [a.slotId.Some?, a.appointmentType.Some?, a.lawyerId.Some?, a.reason.Some?, a.appointmentDate.Some?];
    var required := Validators.ValidateRequiredFields(flags);
    assert required.Pass? <==> Complete(a) by {
      if required.Pass? {
        assert flags[0] && flags[1] && flags[2] && flags[3] && flags[4];
      }
    }
    if required.Fail? then
      required
    else
      var notes := if Truthy(a.notes) then Validators.ValidateLength(a.notes.value, 0, Some(500)) else Pass;
      assert notes.Pass? <==> (Truthy(a.notes) ==> |a.notes.value| <= 500);
      Then(Validators.ValidateIdFormat(a.lawyerId.value),
      Then(Validators.ValidateIdFormat(a.slotId.value),
      Then(Validators.ValidateIdFormat(clientId),
      Then(Validators.ValidateEnum(a.appointmentType.value, Appointments.TypeValues),
      Then(Validators.ValidateDateFormat(a.appointmentDate.value, isIsoDate),
      Then(Validators.ValidateLength(a.reason.value, 1, Some(500)),
           notes))))))
  }

  /** The checkout's success and cancel pages for a payment. */
  function SuccessUrl(clientUrl: string, paymentId: string): string {
    clientUrl + "/new-appointment/" + paymentId
  }

  function CancelUrl(clientUrl: string, paymentId: string): string {
    clientUrl + "/new-appointment/cancel/" + paymentId
  }

  /** Which corrections a run of the use case carries. `statusKept`: the
      slot schema declares `status`, so the lock the use case writes is
      stored and read back; the schema as written has no such path, so the
      write is dropped and every slot reads back without it.
      `skipCancelled`: the slot search leaves cancelled appointments out.
      The code as written has neither. */
  datatype Fixes = Fixes(statusKept: bool, skipCancelled: bool)

  const AsWritten: Fixes := Fixes(false, false)

  /** Whether the slot counts as taken on that date: it reads back as
      booked and some appointment holds it on that date. */
  predicate SlotTaken(st: State, slot: Slots.Slot, at: int, fx: Fixes)
  {
    fx.statusKept && slot.booked &&
    if fx.skipCancelled then
      Appointments.FindByDateAndSlot(Live(st.appointments), at, slot.id).Some?
    else
      Appointments.FindByDateAndSlot(st.appointments, at, slot.id).Some?
  }

  /** The appointments that are not cancelled. */
  function Live(t: Appointments.Table): (r: Appointments.Table)
    ensures forall i :: 0 <= i < |r| ==> r[i].status != Appointments.Cancelled && r[i] in t
    ensures forall i :: 0 <= i < |t| && t[i].status != Appointments.Cancelled ==> t[i] in r
  {
    Filter(t, (a: Appointments.Appointment) => a.status != Appointments.Cancelled)
  }

  /** Whether the request gets past every check before the slot's: valid
      input, both parties and the slot found, the client's address on
      file. */
  predicate Ready(st: State, svc: Services, a: AppointmentInput, clientId: string) {
    WellFormed(a, clientId, svc.isIsoDate) &&
    svc.findClient(clientId).Some? && svc.findLawyer(a.lawyerId.value).Some? &&
    SlotStore.FindById(st.slots, a.slotId.value).Some? &&
    svc.findClient(clientId).value.hasAddress
  }

  /** Whether the use case gets past its checks to its first write. */
  predicate Admitted(st: State, svc: Services, a: AppointmentInput, clientId: string, fx: Fixes) {
    Ready(st, svc, a, clientId) &&
    !SlotTaken(st, SlotStore.FindById(st.slots, a.slotId.value).value, svc.toTime(a.appointmentDate.value), fx)
  }

  /** Whether date-fns reads the slot's start time on the requested date,
      so that the session's times can be formatted. */
  predicate Startable(st: State, svc: Services, a: AppointmentInput) {
    a.appointmentDate.Some? && a.slotId.Some? && SlotStore.FindById(st.slots, a.slotId.value).Some? &&
    svc.sessionStart(a.appointmentDate.value, SlotStore.FindById(st.slots, a.slotId.value).value.startTime.GetOr("")).Some?
  }

  /** The checkout session asked for a payment. */
  function Request(svc: Services, paymentId: string): CheckoutRequest {
    CheckoutRequest(BookingAmount, Currency, SuccessUrl(svc.clientUrl, paymentId), CancelUrl(svc.clientUrl, paymentId), paymentId)
  }

  /** The appointment a booking adds, waiting for its payment. */
  function Booked(svc: Services, ids: Fresh, a: AppointmentInput, clientId: string, now: int): Appointments.Appointment
    requires Complete(a)
  {
    Appointments.Appointment(ids.appointmentId, a.lawyerId.value, clientId, a.slotId.value, a.appointmentType.value,
                             svc.toTime(a.appointmentDate.value), a.reason.value, a.notes, Appointments.PaymentPending,
                             ids.paymentId, now)
  }

  /** The use case with the corrections as a choice; `Exec` is the code as
      written. The writes go in the source's order: the slot, the payment,
      the checkout session, the appointment, the payment's update, and the
      session, whose times are formatted last; a failure leaves the writes
      before it in place. */
  function ExecWith(st: State, svc: Services, ids: Fresh, a: AppointmentInput, clientId: string, now: int,
                    fx: Fixes): (r: Step<Checkout>)
    ensures !Admitted(st, svc, a, clientId, fx) ==> r.state == st && r.result.Err?
    ensures Admitted(st, svc, a, clientId, fx) ==>
              var slot := SlotStore.FindById(st.slots, a.slotId.value).value;
              (fx.statusKept ==> SlotStore.FindById(r.state.slots, slot.id) == Some(slot.(booked := true))) &&
              (!fx.statusKept || slot.booked ==> r.state.slots == st.slots) &&
              |r.state.payments| == |st.payments| + 1 &&
              r.state.payments[..|st.payments|] == st.payments &&
              r.state.notifications == st.notifications && r.state.refunds == st.refunds
    ensures Admitted(st, svc, a, clientId, fx) ==>
              (r.result.Ok? <==> svc.checkout(Request(svc, ids.paymentId)).Ok? && Startable(st, svc, a))
    ensures Admitted(st, svc, a, clientId, fx) && svc.checkout(Request(svc, ids.paymentId)).Err? ==>
              r.result == Err(svc.checkout(Request(svc, ids.paymentId)).error) &&
              r.state.appointments == st.appointments && r.state.sections == st.sections &&
              r.state.payments[|st.payments|] ==
                Payment(ids.paymentId, "", None, BookingAmount, Currency, PaymentOpen, None, now)
    ensures Admitted(st, svc, a, clientId, fx) && svc.checkout(Request(svc, ids.paymentId)).Ok? ==>
              r.state.appointments == st.appointments + [Booked(svc, ids, a, clientId, now)] &&
              r.state.payments[|st.payments|] ==
                Payment(ids.paymentId, svc.checkout(Request(svc, ids.paymentId)).value.id, Some(ids.appointmentId),
                        BookingAmount, Currency, PaymentOpen, None, now)
    ensures Admitted(st, svc, a, clientId, fx) && svc.checkout(Request(svc, ids.paymentId)).Ok? &&
            !Startable(st, svc, a) ==>
              r.result == Err(Plain(InvalidTime)) && r.state.sections == st.sections
    ensures r.result.Ok? ==>
              Admitted(st, svc, a, clientId, fx) &&
              var session := svc.checkout(Request(svc, ids.paymentId));
              session.Ok? && r.result.value == Checkout(session.value.id, session.value.url) &&
              |r.state.sections| == |st.sections| + 1 && r.state.sections[..|st.sections|] == st.sections &&
              var v := r.state.sections[|st.sections|];
              v.appointmentId == ids.appointmentId && v.roomId == ids.roomId && v.status == SectionPending &&
              v.endTime == v.startTime + SessionLength
  {
    match ValidateAppointmentData(a, clientId, svc.isIsoDate)
    case Fail(e) => Step(st, Err(e))
    case Pass =>
      var client := svc.findClient(clientId);
      var lawyer := svc.findLawyer(a.lawyerId.value);
      if client.None? || lawyer.None? then Step(st, Err(Custom(NotFound, PartyNotFound)))
      else
        match SlotStore.FindById(st.slots, a.slotId.value)
        case None => Step(st, Err(Custom(NotFound, SlotNotFound)))
        case Some(slot) =>
          if !client.value.hasAddress then Step(st, Err(Custom(BadRequest, ProfileMissing)))
          else
            var at := svc.toTime(a.appointmentDate.value);
            if SlotTaken(st, slot, at, fx) then Step(st, Err(Custom(Conflict, SlotAlreadyBooked)))
            else
              var slots := if !fx.statusKept || slot.booked then st.slots else SlotStore.MarkBooked(st.slots, slot.id);
              assert fx.statusKept ==> SlotStore.FindById(slots, slot.id) == Some(slot.(booked := true));
              var payment := Payment(ids.paymentId, "", None, BookingAmount, Currency, PaymentOpen, None, now);
              match svc.checkout(Request(svc, ids.paymentId))
              case Err(e) => Step(st.(slots := slots, payments := st.payments + [payment]), Err(e))
              case Ok(session) => AfterCheckout(st, svc, ids, a, clientId, now, client.value, lawyer.value, slot, slots, session)
  }

  /** The writes once the checkout session is open: the appointment, the
      payment's update with the session and the appointment, and the video
      session, whose times are formatted last. */
  function AfterCheckout(st: State, svc: Services, ids: Fresh, a: AppointmentInput, clientId: string, now: int,
                         client: Party, lawyer: Party, slot: Slots.Slot, slots: SlotStore.SlotTable, session: Session)
    : (r: Step<Checkout>)
    requires Complete(a)
    ensures r.state.slots == slots && r.state.notifications == st.notifications && r.state.refunds == st.refunds
    ensures r.state.appointments == st.appointments + [Booked(svc, ids, a, clientId, now)]
    ensures r.state.payments ==
              st.payments + [Payment(ids.paymentId, session.id, Some(ids.appointmentId), BookingAmount, Currency, PaymentOpen, None, now)]
    ensures r.result.Ok? <==> svc.sessionStart(a.appointmentDate.value, slot.startTime.GetOr("")).Some?
    ensures r.result.Err? ==> r.result == Err(Plain(InvalidTime)) && r.state.sections == st.sections
    ensures r.result.Ok? ==>
              r.result.value == Checkout(session.id, session.url) &&
              |r.state.sections| == |st.sections| + 1 && r.state.sections[..|st.sections|] == st.sections &&
              var v := r.state.sections[|st.sections|];
              v.appointmentId == ids.appointmentId && v.roomId == ids.roomId && v.status == SectionPending &&
              v.endTime == v.startTime + SessionLength
  {
    var appointment := Booked(svc, ids, a, clientId, now);
    var payment := Payment(ids.paymentId, "", None, BookingAmount, Currency, PaymentOpen, None, now);
    var paid := (st.payments + [payment])[|st.payments| := payment.(orderId := session.id, appointmentId := Some(ids.appointmentId))];
    assert paid == st.payments + [payment.(orderId := session.id, appointmentId := Some(ids.appointmentId))];
    match svc.sessionStart(a.appointmentDate.value, slot.startTime.GetOr(""))
    case None =>
      Step(State(st.appointments + [appointment], slots, paid, st.sections, st.notifications, st.refunds),
           Err(Plain(InvalidTime)))
    case Some(start) =>
      var section := VideoSection(ids.sectionId, ids.appointmentId, client.id, lawyer.id, ids.roomId, client.name, lawyer.name,
                                  start, start + SessionLength, SectionPending);
      Step(State(st.appointments + [appointment], slots, paid, st.sections + [section], st.notifications, st.refunds),
           Ok(Checkout(session.id, session.url)))
  }

  /** `exec`, over the slot schema as written. The new payment's update
      finds it by its fresh id; here it is written in place, as the newest
      payment. No slot ever reads back as booked, so the slot check passes
      every request that gets that far, and the slots are left as they
      were. */
  function Exec(st: State, svc: Services, ids: Fresh, a: AppointmentInput, clientId: string, now: int): (r: Step<Checkout>)
    ensures !Ready(st, svc, a, clientId) ==> r.state == st && r.result.Err?
    ensures r.state.slots == st.slots
    ensures r.result.Ok? ==>
              Ready(st, svc, a, clientId) &&
              |r.state.appointments| == |st.appointments| + 1 && |r.state.payments| == |st.payments| + 1 &&
              r.state.appointments[|st.appointments|].status == Appointments.PaymentPending &&
              r.state.appointments[|st.appointments|].clientId == clientId &&
              r.state.appointments[|st.appointments|].paymentId == ids.paymentId &&
              r.state.payments[|st.payments|].status == PaymentOpen &&
              r.state.payments[|st.payments|].amount == BookingAmount
  {
    ExecWith(st, svc, ids, a, clientId, now, AsWritten)
  }

  /** The booking over a slot schema that declares `status`, with the slot
      search as written: the lock is stored, and a slot that reads back as
      booked is refused while any appointment, cancelled or not, holds it
      on that date. */
  function BookKeepingStatus(st: State, svc: Services, ids: Fresh, a: AppointmentInput, clientId: string, now: int): (r: Step<Checkout>)
    ensures r.result.Ok? ==>
              Ready(st, svc, a, clientId) &&
              SlotStore.FindById(r.state.slots, a.slotId.value) ==
                Some(SlotStore.FindById(st.slots, a.slotId.value).value.(booked := true)) &&
              (SlotStore.FindById(st.slots, a.slotId.value).value.booked ==>
                 Appointments.FindByDateAndSlot(st.appointments, svc.toTime(a.appointmentDate.value), a.slotId.value).None?)
  {
    ExecWith(st, svc, ids, a, clientId, now, Fixes(true, false))
  }

  /** No appointment other than a cancelled one holds the slot on that
      date. */
  predicate NoLiveBooking(t: Appointments.Table, slotId: string, at: int) {
    forall i :: 0 <= i < |t| && t[i].slotId == slotId && t[i].appointmentDate == at ==> t[i].status == Appointments.Cancelled
  }

  /** Leaving cancelled appointments out, the search for the slot on that
      date finds nothing exactly when no live appointment holds it. */
  lemma NoLiveBookingIff(t: Appointments.Table, slotId: string, at: int)
    ensures NoLiveBooking(t, slotId, at) <==> Appointments.FindByDateAndSlot(Live(t), at, slotId).None?
  {
    var live := Live(t);
    if NoLiveBooking(t, slotId, at) {
      forall i | 0 <= i < |live| ensures !(live[i].appointmentDate == at && live[i].slotId == slotId) {
        var j :| 0 <= j < |t| && t[j] == live[i];
      }
    } else {
      var i :| 0 <= i < |t| && t[i].slotId == slotId && t[i].appointmentDate == at && t[i].status != Appointments.Cancelled;
      assert t[i] in live;
    }
  }

  /** The booking with both corrections: the slot schema declares
      `status`, and the slot search leaves cancelled appointments out. A
      slot whose only appointments on that date are
      cancelled can be booked again, and a booked slot is taken only by a
      live appointment. */
  function BookReleased(st: State, svc: Services, ids: Fresh, a: AppointmentInput, clientId: string, now: int): (r: Step<Checkout>)
    ensures (Ready(st, svc, a, clientId) &&
             NoLiveBooking(st.appointments, a.slotId.value, svc.toTime(a.appointmentDate.value)) &&
             svc.checkout(Request(svc, ids.paymentId)).Ok? && Startable(st, svc, a)) ==> r.result.Ok?
    ensures r.result.Ok? ==>
              Ready(st, svc, a, clientId) &&
              (SlotStore.FindById(st.slots, a.slotId.value).value.booked ==>
                 NoLiveBooking(st.appointments, a.slotId.value, svc.toTime(a.appointmentDate.value)))
  {
    assert Ready(st, svc, a, clientId) ==>
             (NoLiveBooking(st.appointments, a.slotId.value, svc.toTime(a.appointmentDate.value)) <==>
              Appointments.FindByDateAndSlot(Live(st.appointments), svc.toTime(a.appointmentDate.value), a.slotId.value).None?) by {
      if Ready(st, svc, a, clientId) {
        NoLiveBookingIff(st.appointments, a.slotId.value, svc.toTime(a.appointmentDate.value));
      }
    }
    ExecWith(st, svc, ids, a, clientId, now, Fixes(true, true))
  }

  /** The errors before the first write, in the order they are checked.
      The last, the slot already booked, needs a stored status: over the
      schema as written it is never raised. */
  lemma ExecRefusals(st: State, svc: Services, ids: Fresh, a: AppointmentInput, clientId: string, now: int, fx: Fixes)
    requires WellFormed(a, clientId, svc.isIsoDate)
    ensures svc.findClient(clientId).None? || svc.findLawyer(a.lawyerId.value).None? ==>
              ExecWith(st, svc, ids, a, clientId, now, fx) == Step(st, Err(Custom(NotFound, PartyNotFound)))
    ensures svc.findClient(clientId).Some? && svc.findLawyer(a.lawyerId.value).Some? &&
            SlotStore.FindById(st.slots, a.slotId.value).None? ==>
              ExecWith(st, svc, ids, a, clientId, now, fx) == Step(st, Err(Custom(NotFound, SlotNotFound)))
    ensures svc.findClient(clientId).Some? && svc.findLawyer(a.lawyerId.value).Some? &&
            SlotStore.FindById(st.slots, a.slotId.value).Some? && !svc.findClient(clientId).value.hasAddress ==>
              ExecWith(st, svc, ids, a, clientId, now, fx) == Step(st, Err(Custom(BadRequest, ProfileMissing)))
    ensures svc.findClient(clientId).Some? && svc.findLawyer(a.lawyerId.value).Some? &&
            SlotStore.FindById(st.slots, a.slotId.value).Some? && svc.findClient(clientId).value.hasAddress ==>
              (ExecWith(st, svc, ids, a, clientId, now, fx) == Step(st, Err(Custom(Conflict, SlotAlreadyBooked))) <==>
               SlotTaken(st, SlotStore.FindById(st.slots, a.slotId.value).value, svc.toTime(a.appointmentDate.value), fx))
  {
    assert ValidateAppointmentData(a, clientId, svc.isIsoDate) == Pass;
  }

  // ---------------------------------------------------------------------
  // The webhook.

  /** What the gateway's webhook check yields: whether the event carries a
      data object, the `metadata.paymentId` of that object, the transaction
      id, and the event type. */
  datatype WebhookEvent = WebhookEvent(hasObject: bool, paymentId: Option<string>, transactionId: string, kind: string)

  /** `verifyPaymentIntent`: an unknown payment changes nothing; otherwise
      the payment is completed (recording the transaction id only for a
      charge) and its appointment confirmed. The payment as it was before
      is returned. */
  function VerifyPaymentIntent(st: State, id: string, transactionId: string, kind: string): (r: Step<Option<Payment>>)
    ensures FindPayment(st.payments, id).None? ==> r == Step(st, Ok(None))
    ensures FindPayment(st.payments, id).Some? ==>
              var p := FindPayment(st.payments, id).value;
              r.result == Ok(Some(p)) &&
              FindPayment(r.state.payments, id) ==
                Some(p.(status := PaymentCompleted, transactionId := if kind == ChargeType then Some(transactionId) else p.transactionId)) &&
              (p.appointmentId.Some? ==> r.state.appointments == Appointments.Confirm(st.appointments, p.appointmentId.value)) &&
              (p.appointmentId.None? ==> r.state.appointments == st.appointments)
    ensures |r.state.payments| == |st.payments|
    ensures forall i :: 0 <= i < |st.payments| && st.payments[i].id != id ==> r.state.payments[i] == st.payments[i]
    ensures r.state.slots == st.slots && r.state.sections == st.sections &&
            r.state.notifications == st.notifications && r.state.refunds == st.refunds
  {
    match FindPayment(st.payments, id)
    case None => Step(st, Ok(None))
    case Some(p) =>
      var complete := (q: Payment) =>
        q.(status := PaymentCompleted, transactionId := if kind == ChargeType then Some(transactionId) else q.transactionId);
      var payments := UpdatePayment(st.payments, id, complete);
      var appointments := if p.appointmentId.Some? then Appointments.Confirm(st.appointments, p.appointmentId.value)
                          else st.appointments;
      Step(st.(payments := payments, appointments := appointments), Ok(Some(p)))
  }

  /** `handleStripeWebhook`: a refused event is an error; an event without
      its object or payment id changes nothing; otherwise the payment is
      verified. */
  function HandleStripeWebhook(st: State, event: Result<WebhookEvent>): (r: Step<()>)
    ensures event.Err? ==> r == Step(st, Err(event.error))
    ensures event.Ok? && (!event.value.hasObject || !Truthy(event.value.paymentId)) ==> r == Step(st, Ok(()))
    ensures event.Ok? && event.value.hasObject && Truthy(event.value.paymentId) ==>
              r == Step(VerifyPaymentIntent(st, event.value.paymentId.value, event.value.transactionId, event.value.kind).state, Ok(()))
  {
    match event
    case Err(e) => Step(st, Err(e))
    case Ok(ev) =>
      if !ev.hasObject || !Truthy(ev.paymentId) then Step(st, Ok(()))
      else Step(VerifyPaymentIntent(st, ev.paymentId.value, ev.transactionId, ev.kind).state, Ok(()))
  }
}
