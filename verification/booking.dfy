/** The records a booking touches besides the appointment itself: the
    payment, the video session ("video section") and the notifications, the
    refunds asked of the payment gateway, and the state the booking use cases
    act on. */
module Booking {

  import opened Outcome
  import opened Records
  import Appointments
  import SlotStore

  /** `PaymentStatus`: a payment is opened with the checkout and completed
      by the gateway's webhook. */
  datatype PaymentStatus = PaymentOpen | PaymentCompleted

  /** A payment record. `transactionId` is the record's `paymentId` field:
      the gateway's charge id, known only after the webhook. */
  datatype Payment = Payment(
    id: string,
    orderId: string,
    appointmentId: Option<string>,
    amount: int,
    currency: string,
    status: PaymentStatus,
    transactionId: Option<string>,
    createdAt: int)

  /** `VideoSectionStatus`. */
  datatype SectionStatus = SectionPending | SectionCompleted | SectionCancelled

  /** A video session. Times are epoch milliseconds.

      `appointmentId` and `roomId` are the fields the booking hands to
      `create`. The session schema declares neither, so as written the
      strict store drops both: the `...AsWritten` members below never read
      them, and the other members describe a schema that keeps them. */
  datatype VideoSection = VideoSection(
    id: string,
    appointmentId: string,
    clientId: string,
    lawyerId: string,
    roomId: string,
    clientName: string,
    lawyerName: string,
    startTime: int,
    endTime: int,
    status: SectionStatus)

  /** `NotificationTypes`. */
  datatype NotificationType = AppointmentCanceled | AppointmentConfirmed | AppointmentReminder

  /** Whom a notification is addressed to: the field it sets. */
  datatype Recipient = ToClient(clientId: string) | ToLawyer(lawyerId: string) | ToUser(userId: string)

  datatype Notification = Notification(recipient: Recipient, kind: NotificationType, message: string, appointmentId: Option<string>)

  /** A refund asked of the gateway: the charge id (absent when the webhook
      did not record one) and the amount. */
  datatype Refund = Refund(transactionId: Option<string>, amount: int)

  /** Everything the booking use cases read and write. */
  datatype State = State(
    appointments: Appointments.Table,
    slots: SlotStore.SlotTable,
    payments: seq<Payment>,
    sections: seq<VideoSection>,
    notifications: seq<Notification>,
    refunds: seq<Refund>)

  /** What a use case leaves behind, and what it answers. */
  datatype Step<T> = Step(state: State, result: Result<T>)

  // ---------------------------------------------------------------------
  // Payments.

  /** `findById`. */
  function FindPayment(ps: seq<Payment>, id: string): (r: Option<Payment>)
    ensures r.None? <==> forall i :: 0 <= i < |ps| ==> ps[i].id != id
    ensures r.Some? ==> r.value.id == id && r.value in ps
  {
    var i := FirstIndex(ps, (p: Payment) => p.id == id);
    if i < |ps| then Some(ps[i]) else None
  }

  /** `findByAppointmentId`: the first payment recorded for that
      appointment. */
  function FindPaymentByAppointmentId(ps: seq<Payment>, appointmentId: string): (r: Option<Payment>)
    ensures r.None? <==> forall i :: 0 <= i < |ps| ==> ps[i].appointmentId != Some(appointmentId)
    ensures r.Some? ==> r.value.appointmentId == Some(appointmentId) && r.value in ps
  {
    var i := FirstIndex(ps, (p: Payment) => p.appointmentId == Some(appointmentId));
    if i < |ps| then Some(ps[i]) else None
  }

  /** `update`: the payment with that id is replaced by `f` of itself; an
      unknown id changes nothing. */
  function UpdatePayment(ps: seq<Payment>, id: string, f: Payment -> Payment): (r: seq<Payment>)
    requires forall p :: f(p).id == p.id
    ensures |r| == |ps|
    ensures forall i :: 0 <= i < |ps| && ps[i].id != id ==> r[i] == ps[i]
    ensures FindPayment(ps, id).None? ==> r == ps
    ensures FindPayment(ps, id).Some? ==> FindPayment(r, id) == Some(f(FindPayment(ps, id).value))
  {
    var hasId := (p: Payment) => p.id == id;
    var k := FirstIndex(ps, hasId);
    if k < |ps| then
      var r := ps[k := f(ps[k])];
      FirstIndexIs(r, hasId, k);
      r
    else ps
  }

  // ---------------------------------------------------------------------
  // Video sections.

  /** `findByRoomId`. */
  function FindSectionByRoomId(vs: seq<VideoSection>, roomId: string): (r: Option<VideoSection>)
    ensures r.None? <==> forall i :: 0 <= i < |vs| ==> vs[i].roomId != roomId
    ensures r.Some? ==> r.value.roomId == roomId && r.value in vs
  {
    var i := FirstIndex(vs, (v: VideoSection) => v.roomId == roomId);
    if i < |vs| then Some(vs[i]) else None
  }

  /** The first section `p` picks takes the status; nothing else changes. */
  function SetFirstSectionStatus(vs: seq<VideoSection>, p: VideoSection -> bool, status: SectionStatus): (r: seq<VideoSection>)
    ensures |r| == |vs|
    ensures FirstIndex(vs, p) < |vs| ==> r[FirstIndex(vs, p)] == vs[FirstIndex(vs, p)].(status := status)
    ensures forall i :: 0 <= i < |vs| && i != FirstIndex(vs, p) ==> r[i] == vs[i]
  {
    var k := FirstIndex(vs, p);
    if k < |vs| then vs[k := vs[k].(status := status)] else vs
  }

  /** `update(id, {status})`: the section with that id takes the status. */
  function SetSectionStatus(vs: seq<VideoSection>, id: string, status: SectionStatus): (r: seq<VideoSection>)
    ensures |r| == |vs|
    ensures forall i :: 0 <= i < |vs| && vs[i].id != id ==> r[i] == vs[i]
    ensures forall i :: 0 <= i < |vs| && vs[i].id == id && (forall j :: 0 <= j < i ==> vs[j].id != id) ==>
              r[i] == vs[i].(status := status)
  {
    SetFirstSectionStatus(vs, (v: VideoSection) => v.id == id, status)
  }

  /** `findByAppointmentIdAndUpdate(appointmentId, {status})`: the first
      section of that appointment takes the status. */
  function SetSectionStatusByAppointment(vs: seq<VideoSection>, appointmentId: string, status: SectionStatus): (r: seq<VideoSection>)
    ensures |r| == |vs|
    ensures forall i :: 0 <= i < |vs| && vs[i].appointmentId != appointmentId ==> r[i] == vs[i]
    ensures forall i :: 0 <= i < |vs| && vs[i].appointmentId == appointmentId && (forall j :: 0 <= j < i ==> vs[j].appointmentId != appointmentId) ==>
              r[i] == vs[i].(status := status)
  {
    SetFirstSectionStatus(vs, (v: VideoSection) => v.appointmentId == appointmentId, status)
  }

  // ---------------------------------------------------------------------
  // Video sections as written: `roomId` and `appointmentId` are not stored,
  // so a filter on either is a filter on an undeclared path.

  /** `findByRoomId` as written: the room plays no part, and the query
      finds the first session of the collection, or none. */
  function FindSectionByRoomIdAsWritten(vs: seq<VideoSection>, roomId: string, q: StrictQuery): (r: Option<VideoSection>)
    ensures r.Some? <==> q == DropsPath && |vs| > 0
    ensures r.Some? ==> r.value == vs[0]
  {
    var matches := UndeclaredMatches(vs, q);
    if |matches| > 0 then Some(matches[0]) else None
  }

  /** With another room's session stored first, the lookup as written
      never finds the room's own session, which the lookup by room does. */
  lemma RoomMissedAsWritten(vs: seq<VideoSection>, roomId: string, q: StrictQuery, k: nat)
    requires 0 < k < |vs| && vs[k].roomId == roomId && vs[0].roomId != roomId
    ensures FindSectionByRoomId(vs, roomId).Some? && FindSectionByRoomId(vs, roomId).value.roomId == roomId
    ensures FindSectionByRoomIdAsWritten(vs, roomId, q) != Some(vs[k])
    ensures FindSectionByRoomIdAsWritten(vs, roomId, q).Some? ==> FindSectionByRoomIdAsWritten(vs, roomId, q).value.roomId != roomId
  {
  }

  /** `findByAppointmentIdAndUpdate(appointmentId, {status})` as written:
      the appointment plays no part; the first session of the collection
      takes the status when the condition is dropped, and nothing changes
      when it is kept. */
  function SetSectionStatusByAppointmentAsWritten(vs: seq<VideoSection>, appointmentId: string, status: SectionStatus,
                                                  q: StrictQuery): (r: seq<VideoSection>)
    ensures |r| == |vs|
    ensures forall i :: 0 < i < |vs| ==> r[i] == vs[i]
    ensures q == KeepsPath ==> r == vs
    ensures q == DropsPath && |vs| > 0 ==> r[0] == vs[0].(status := status)
  {
    SetFirstSectionStatus(vs, (v: VideoSection) => q == DropsPath, status)
  }

  /** When the appointment's session is not the first of the collection,
      the update by appointment changes it, and the update as written
      leaves it as it was and, with the condition dropped, changes the
      first session, another appointment's. */
  lemma OwnSectionMissedAsWritten(vs: seq<VideoSection>, appointmentId: string, status: SectionStatus, q: StrictQuery, k: nat)
    requires 0 < k < |vs| && vs[k].appointmentId == appointmentId && vs[k].status != status
    requires forall j :: 0 <= j < k ==> vs[j].appointmentId != appointmentId
    ensures SetSectionStatusByAppointment(vs, appointmentId, status)[k].status == status
    ensures SetSectionStatusByAppointmentAsWritten(vs, appointmentId, status, q)[k].status != status
    ensures q == DropsPath ==>
              vs[0].appointmentId != appointmentId &&
              SetSectionStatusByAppointmentAsWritten(vs, appointmentId, status, q)[0].status == status
  {
  }
}
