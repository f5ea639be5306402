/** Reading appointments (`GetAppointmentUseCase`): the lawyer's listing,
    one appointment's details, and the page the client lands on after
    paying. */
module GetAppointment {

  import opened Outcome
  import opened Booking
  import Appointments
  import Validators

  const PaymentNotFound: string := "Payment not found"
  const PaymentTooOld: string := "Payment is older than 10 minutes"

  /** How long after the payment is created its success page may be read,
      in milliseconds (10 minutes). */
  const SuccessPageWindow: int := 10 * 60000

  /** `getAppointmentsByLawyerId`: the id must be an id and a given status
      one of the statuses; the listing then drops appointments still waiting
      for their payment. The store's query already leaves those out, so the
      drop removes nothing. */
  function GetAppointmentsByLawyerId(t: Appointments.Table, lawyerId: string, offset: nat, limit: nat, status: Option<string>)
    : (r: Result<Appointments.Listing<Appointments.Appointment>>)
    ensures r.Ok? <==> Validators.IsIdText(lawyerId) && (Truthy(status) ==> status.value in Appointments.StatusValues)
    ensures r.Err? ==> r.error.Custom? && r.error.status == BadRequest
    ensures r.Ok? ==> r.value == Appointments.FindManyByLawyerId(t, lawyerId, offset, limit, status)
    ensures r.Ok? ==> forall i :: 0 <= i < |r.value.items| ==>
              r.value.items[i].lawyerId == lawyerId && r.value.items[i].status != Appointments.PaymentPending
  {
    var checks := Then(Validators.ValidateIdFormat(lawyerId),
                       if Truthy(status) then Validators.ValidateEnum(status.value, Appointments.StatusValues) else Pass);
    match checks
    case Fail(e) => Err(e)
    case Pass =>
      var listing := Appointments.FindManyByLawyerId(t, lawyerId, offset, limit, status);
      var unpaid := (a: Appointments.Appointment) => a.status != Appointments.PaymentPending;
      Records.FilterAll(listing.items, unpaid);
      Ok(listing.(items := Records.Filter(listing.items, unpaid)))
  }

  /** `getAppointmentDetails`: the id must be an id; the appointment with
      that id, if any. */
  function GetAppointmentDetails(t: Appointments.Table, appointmentId: string): (r: Result<Option<Appointments.Appointment>>)
    ensures r.Err? <==> !Validators.IsIdText(appointmentId)
    ensures r.Err? ==> r.error == Custom(BadRequest, Validators.IdMessage)
    ensures r.Ok? && r.value.Some? ==> r.value.value.id == appointmentId && r.value.value in t
    ensures r.Ok? && r.value.None? ==> forall i :: 0 <= i < |t| ==> t[i].id != appointmentId
  {
    match Validators.ValidateIdFormat(appointmentId)
    case Fail(e) => Err(e)
    case Pass => Ok(Appointments.FindById(t, appointmentId))
  }

  /** Whether a payment created at `createdAt` is still within its success
      page's window at `now`: minutes elapsed no more than ten. */
  predicate Recent(createdAt: int, now: int) {
    now - createdAt <= SuccessPageWindow
  }

  /** `getSuccessPageDetails`: the id must be an id and name a payment made
      no more than ten minutes ago; the answer is that payment's
      appointment. */
  function GetSuccessPageDetails(st: State, paymentId: string, now: int): (r: Result<Option<Appointments.Appointment>>)
    ensures !Validators.IsIdText(paymentId) ==> r == Err(Custom(BadRequest, Validators.IdMessage))
    ensures Validators.IsIdText(paymentId) && FindPayment(st.payments, paymentId).None? ==>
              r == Err(Custom(NotFound, PaymentNotFound))
    ensures r.Ok? <==>
              Validators.IsIdText(paymentId) && FindPayment(st.payments, paymentId).Some? &&
              Recent(FindPayment(st.payments, paymentId).value.createdAt, now)
    ensures r.Ok? && r.value.Some? ==>
              FindPayment(st.payments, paymentId).value.appointmentId == Some(r.value.value.id) && r.value.value in st.appointments
  {
    match Validators.ValidateIdFormat(paymentId)
    case Fail(e) => Err(e)
    case Pass =>
      match FindPayment(st.payments, paymentId)
      case None => Err(Custom(NotFound, PaymentNotFound))
      case Some(p) =>
        if !Recent(p.createdAt, now) then Err(Custom(BadRequest, PaymentTooOld))
        else
          match p.appointmentId
          case None => Ok(None)
          case Some(id) => Ok(Appointments.FindById(st.appointments, id))
  }

  /** The success page can be read up to exactly ten minutes after the
      payment, and not a millisecond later. */
  lemma SuccessPageWindowEdge(st: State, paymentId: string)
    requires Validators.IsIdText(paymentId) && FindPayment(st.payments, paymentId).Some?
    ensures var at := FindPayment(st.payments, paymentId).value.createdAt;
            GetSuccessPageDetails(st, paymentId, at + SuccessPageWindow).Ok? &&
            GetSuccessPageDetails(st, paymentId, at + SuccessPageWindow + 1) == Err(Custom(BadRequest, PaymentTooOld))
  {
  }
}
