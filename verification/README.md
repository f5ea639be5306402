# Aavukat booking backend, modelled in Dafny

Aavukat is the backend of a legal-consultation service. Clients register,
log in with a password followed by a mailed one-time code (OTP), or sign in
through OAuth. They book a lawyer's weekly time slot, pay for it through a
payment gateway and meet in a video session. Lawyers publish their slots
and confirm or cancel appointments. Clients and lawyers talk in a chat.
A chatbot answers legal questions. Administrators verify and block accounts
and read dashboard statistics.

This project models the core of that backend as pure Dafny functions over
immutable state, and proves properties of it:

- **Stores.** Each MongoDB collection the core uses is a sequence of
  records: clients, lawyers, administrators, OTP codes, slots,
  appointments, payments, video sessions, chats, chatbot messages and legal
  history. Every repository query and write the core calls is a function
  on that sequence, with the collection's schema checks and unique indexes.
- **Validators** (`JoiService`). Each check passes or fails with a 400
  error. The id, time, password and OTP regular expressions are given a
  meaning through a small regular-expression model.
- **Authentication.** The shared password, OTP and OAuth flows, the account
  gate, OTP issue and expiry, tokens and password updates, and each role's
  use cases on top of them.
- **Bookings.** Booking a slot, the payment webhook, status changes and
  cancellation with refund, together with the listings of appointments
  (clients', lawyers', by date, by slot) and their pagination.
- **Slots.** Creating and deleting slots by day and for the whole week,
  with the cascade to booked appointments, and the listing of free slots
  by date.
- **Chat and chatbot.** Creating chats and messages, authorisation,
  unread counts, and the chatbot history with its retention.
- **Administration.** The admin lawyer and client use cases and the
  dashboard statistics.
- **Controllers.** The controllers' query parsing, clamps and guards, the
  bearer-token middleware, the OTP mail, and `encodeMongoURI`.

The model does not stand in for the world outside. Each of these is a
parameter of the operation that uses it: the clock (`now`), fresh ids, the
random draw of an OTP, hashing and token signing, the mail service, the
payment gateway, object storage, the chatbot's reply generator, and the
calendar of the dashboard. Errors are the source's `CustomError(status,
message)` (`Custom`) or a plain thrown error (`Plain`). Each store write
returns the new collection together with the result (`Step`, `BotStep`,
`Reply`).

Where the code and its design disagree, the model follows the code and
states the disagreement as a finding below. Each finding has both halves in
Dafny: the code as written, with a lemma that exhibits the problem, and
the corrected definition, with the intended property proved. The rest of
the model uses the corrected definition.

## Model

| member | source | states |
|---|---|---|
| AdminAuth.Login | src/use_case/admin/AuthenticationUseCase.ts:22-26 | An administrator's password login is the shared password flow for the admin role, and it never writes the user table. |
| AdminAuth.ValidateOtpAndLogin | src/use_case/admin/AuthenticationUseCase.ts:28-34 | An administrator's code login succeeds exactly when the shared code flow does and both tokens are present; errors pass on unchanged. |
| AdminAuth.ResendOtp | src/use_case/admin/AuthenticationUseCase.ts:36-48 | An unknown administrator gets 404, and a verified one gets 400 when the resend is for verification. Otherwise the answer claims a code was sent, but no code is stored or mailed. |
| AdminAuth.RefreshAccessToken | src/use_case/admin/AuthenticationUseCase.ts:50-55 | A refresh token is accepted exactly when the service verifies it and its administrator still exists; the new tokens carry the admin role. |
| AdminAuth.AdminGateNeverWrongRole | src/infrastructure/repositories/AdminRepository.ts:16-28 | The administrators' lookups only find admin users, so an administrator is never refused by the gate for having the wrong role. |
| AdminAuth.UnverifiedAdminStaysUnverified | src/infrastructure/repositories/AdminRepository.ts:42-50 | A code login by an unverified administrator, whatever its outcome, leaves the table unchanged, because the update writes only the block flag and the password. |
| AdminCases.FilterFlags | src/use_case/admin/AdminLawyerUseCase.ts:8-30 | Maps each listing filter to the verification and block flags it asks for. |
| AdminCases.FlagsSelectCategory | src/use_case/admin/AdminLawyerUseCase.ts:12-27 | For a lawyer with both flags present, passing a filter's flags is the same as being in that filter's category. |
| AdminCases.GetAllLawyersAsWritten | src/use_case/admin/AdminLawyerUseCase.ts:8-30 | As written, the admin listing returns every lawyer whatever the filter, because `findMany` ignores the flags. |
| AdminCases.BlockedFilterListsUnblocked | src/infrastructure/repositories/LawyerRepository.ts:54-84 | As written, an unblocked lawyer appears under the "blocked" filter. |
| AdminCases.GetAllLawyers | src/use_case/admin/AdminLawyerUseCase.ts:8-30 | Corrected listing: every lawyer listed is in the filter's category, and the total counts exactly that category. |
| AdminCases.ListedInCategory | src/use_case/admin/AdminLawyerUseCase.ts:12-27 | Every lawyer that passes a filter's flags is in the filter's category. |
| AdminCases.SetLawyerFlags | src/infrastructure/repositories/LawyerRepository.ts:130-132 | `updateById` changes exactly the targeted lawyer's flags, and every other row is unchanged. |
| AdminCases.UpdateFindsSameRow | src/infrastructure/repositories/LawyerRepository.ts:130-132 | An update keeps every row's id, so a lookup finds the updated lawyer at the same position. |
| AdminCases.VerifyLawyer | src/use_case/admin/AdminLawyerUseCase.ts:32-34 | The lawyer becomes verified; the block flag and every other lawyer stay as they were. |
| AdminCases.SetLawyerBlocked | src/use_case/admin/AdminLawyerUseCase.ts:36-42 | Blocking or unblocking sets only that lawyer's block flag. |
| AdminCases.BlockUnblockLawyer | src/use_case/admin/AdminLawyerUseCase.ts:36-42 | Blocking an unblocked lawyer and then unblocking them restores the original row. |
| AdminCases.GetAllClients | src/use_case/admin/AdminClientUseCase.ts:13-15 | The page is the window of all clients at the offset, with no verification or block filter, so its total counts every client. |
| AdminCases.BlockUnblockChecks | src/use_case/admin/AdminClientUseCase.ts:19-23 | The demo administrator is refused before the client id is checked; the checks pass exactly when neither refusal applies. |
| AdminCases.WriteClientBlocked | src/use_case/admin/AdminClientUseCase.ts:24 | Only the targeted client's block flag changes. |
| AdminCases.UpdateFindsSameClient | src/infrastructure/repositories/ClientRepository.ts:96-98 | An update keeps every client's id, so the updated client is found at the same position. |
| AdminCases.BlockUnblockAsWritten | src/use_case/admin/AdminClientUseCase.ts:17-25 | As written: once the checks pass, the stored flag is the negation of the flag passed in. |
| AdminCases.BlockUnblock | src/use_case/admin/AdminClientUseCase.ts:17-25 | Corrected: once the checks pass, the stored flag is the flag passed in. |
| AdminStore.ToAdmin | src/infrastructure/repositories/AdminRepository.ts:52-62 | An administrator account keeps the user's id, e-mail, password and flags. |
| AdminStore.FindByEmail | src/infrastructure/repositories/AdminRepository.ts:16-28 | Finds the administrator with that e-mail, if there is one; a user of another role is never found. |
| AdminStore.FindById | src/infrastructure/repositories/AdminRepository.ts:9-14 | Finds the administrator with that id, if there is one. |
| AdminStore.Create | src/infrastructure/repositories/AdminRepository.ts:30-40 | A new e-mail adds one verified administrator and keeps every other row; an e-mail already in the table is refused and nothing is written. |
| AdminStore.Update | src/infrastructure/repositories/AdminRepository.ts:42-50 | Only the block flag and the password of that user change; an unknown id is an error. |
| Appointments.ParseStatus | src/domain/entities/IAppointment.ts:5-11 | A text reads as a status exactly when it is one of the enumeration's values. |
| Appointments.StatusTextRoundTrip | src/domain/entities/IAppointment.ts:5-11 | Each status has its own text, and that text reads back as the same status. |
| Appointments.FindById | src/infrastructure/repositories/AppointmentRepository.ts:16-18 | Finds the appointment with that id, if there is one. |
| Appointments.Update | src/infrastructure/repositories/AppointmentRepository.ts:20-22 | The appointment with that id takes the given fields and is returned; other appointments are unchanged; an unknown id writes nothing. |
| Appointments.Confirm | src/infrastructure/repositories/AppointmentRepository.ts:206-210 | Only that appointment's status changes, and it becomes confirmed. |
| Appointments.FindManyByIds | src/infrastructure/repositories/AppointmentRepository.ts:24-26 | Returns exactly the appointments whose id is listed, in table order. |
| Appointments.FindBySlotIds | src/infrastructure/repositories/AppointmentRepository.ts:28-30 | Returns exactly the appointments booked in one of those slots. |
| Appointments.DeleteMany | src/infrastructure/repositories/AppointmentRepository.ts:32-34 | Exactly the appointments with the listed ids are removed; the rest keep their order. |
| Appointments.UpdateManyBySlotIdsNotInStatuses | src/infrastructure/repositories/AppointmentRepository.ts:195-204 | The table is left unchanged; the result is the appointments in those slots whose status is not excluded. |
| Appointments.BulkUpdateIsSlotQuery | src/infrastructure/repositories/AppointmentRepository.ts:195-204 | The bulk "update" is the slot query without the excluded statuses, and the appointments it returns keep their old status. |
| Appointments.PageOf | src/infrastructure/repositories/AppointmentRepository.ts:138-158 | A page skips `limit * offset` matches and holds at most `limit`; a limit of 0 sets no limit. |
| Appointments.FindManyByClientId | src/infrastructure/repositories/AppointmentRepository.ts:138-158 | Lists that client's appointments, excluding unpaid ones and filtered by status when a status is given, newest first and one page at a time; the total counts every match. |
| Appointments.FindManyByLawyerId | src/infrastructure/repositories/AppointmentRepository.ts:160-181 | The same listing over that lawyer's appointments. |
| Appointments.PageKeepsOrder | src/infrastructure/repositories/AppointmentRepository.ts:150-152 | A page of a newest-first sequence is itself newest first. |
| Appointments.ListingsNewestFirst | src/infrastructure/repositories/AppointmentRepository.ts:138-181 | When the table is kept in creation order, both listings come newest first. |
| Appointments.MatchOnItsPage | src/infrastructure/repositories/AppointmentRepository.ts:150-152 | The offset is a page number: the k-th match is item `k % limit` of page `k / limit`. |
| Appointments.UnpaidNotListed | src/infrastructure/repositories/AppointmentRepository.ts:138-181 | Adding an appointment that is still waiting for payment changes neither listing: not its items and not its total. |
| Appointments.DateOnly | src/infrastructure/repositories/AppointmentRepository.ts:183-189 | The date text is cut at its first `T`. |
| Appointments.DateOnlyOfTimestamp | src/infrastructure/repositories/AppointmentRepository.ts:183-189 | An ISO timestamp `<date>T<time>` is cut back to exactly its date. |
| Appointments.FindManyByDateAndLawyerId | src/infrastructure/repositories/AppointmentRepository.ts:183-189 | Returns exactly that lawyer's appointments dated on or after the date part of the given text. |
| Appointments.FindByDateAndSlot | src/infrastructure/repositories/AppointmentRepository.ts:191-193 | Finds an appointment exactly when one is booked in that slot on that date, cancelled or not. |
| Appointments.GetCountByRange | src/infrastructure/repositories/AppointmentRepository.ts:212-220 | Counts the appointments created between `start` and `end`, both included. |
| Appointments.RangeCountsAdd | src/infrastructure/repositories/AppointmentRepository.ts:212-220 | The counts of two adjacent ranges add up to the count of their union. |
| Appointments.GetCountsByStatus | src/infrastructure/repositories/AppointmentRepository.ts:222-238 | Counts the appointments with that status; the count is 0 when there are none. |
| Appointments.StatusCountsCoverTable | src/infrastructure/repositories/AppointmentRepository.ts:222-238 | The counts for all the statuses add up to the size of the table. |
| Appointments.ClientIdsOf | src/infrastructure/repositories/AppointmentRepository.ts:36-81 | Gives one client id per appointment of that lawyer. |
| Appointments.FindClientsByLawyerId | src/infrastructure/repositories/AppointmentRepository.ts:36-81 | Lists each client who holds an appointment with that lawyer exactly once, without the password and one page at a time; the total is the number of such clients in the client collection. |
| Appointments.LawyerClientOnItsPage | src/infrastructure/repositories/AppointmentRepository.ts:36-81 | A client of the lawyer whose rank among them falls on the page is listed at that position, without the password. |
| Auth.Gate | src/domain/base/BaseAuthenticationUseCase.ts:182-187 | The gate checks the role, then the block flag, then an explicit unverified flag; an account whose verification flag is absent passes. |
| Auth.GateByStanding | src/domain/base/BaseAuthenticationUseCase.ts:182-187 | The refusal "verify first" is given exactly for the unverified standing. A blocked account is refused as blocked whatever its verification flag. |
| Auth.GenerateOtpCode | src/domain/base/BaseAuthenticationUseCase.ts:236-243 | The demo user gets the fixed code; anyone else gets `100000 + draw` as six digits. |
| Auth.GeneratedCodeIsValid | src/domain/base/BaseAuthenticationUseCase.ts:236-243 | Every issued code passes the OTP validator, and an ordinary code lies in 100000..999999. |
| Auth.ExpiryMinutes | src/domain/base/BaseAuthenticationUseCase.ts:205 | The expiry is the configured minutes, or 5 when the setting is absent or 0. |
| Auth.IssueOtp | src/domain/base/BaseAuthenticationUseCase.ts:203-234 | The mail is sent and then the code is stored. A failed mail is ignored; a failed store fails the call. The answer carries no token. |
| Auth.ValidateOtpInput | src/domain/base/BaseAuthenticationUseCase.ts:245-258 | Passes exactly when both inputs are well formed, the newest stored code for the e-mail equals the given one, and its expiry is not before now. |
| Auth.IssueThenCheck | src/domain/base/BaseAuthenticationUseCase.ts:203-258 | A code issued at time t is accepted up to and including t + 5 minutes and refused as expired after that. |
| Auth.CreateAuthTokens | src/domain/base/BaseAuthenticationUseCase.ts:261-274 | Succeeds exactly when both signed tokens are non-empty. |
| Auth.GenerateTokens | src/domain/base/BaseAuthenticationUseCase.ts:338-347 | Succeeds exactly when the user has an id, an e-mail and a role. |
| Auth.ValidateCredentials | src/domain/base/BaseAuthenticationUseCase.ts:277-284 | Checks the e-mail format, then the password strength, then that the password matches the stored hash, reporting the first failure. |
| Auth.HandleAuthFlow | src/domain/base/BaseAuthenticationUseCase.ts:98-113 | Succeeds exactly when the user exists, passes the gate and the password matches; the user store is never written. |
| Auth.HandlePasswordUpdate | src/domain/base/BaseAuthenticationUseCase.ts:286-297 | Only that user's password changes, to the hash of the new one; an unknown e-mail is an error. |
| Auth.VerifyOnLogin | src/domain/base/BaseAuthenticationUseCase.ts:141-179 | An unverified account is stored as verified; every other account is left as it was. |
| Auth.HandleOtpFlow | src/domain/base/BaseAuthenticationUseCase.ts:141-179 | A code login either fails without deleting any code, or issues both tokens and deletes every code for the e-mail. |
| Auth.OtpLoginVerifies | src/domain/base/BaseAuthenticationUseCase.ts:141-179 | An unverified account of the right role that logs in with a valid code is stored as verified, gets tokens, and has no code left. |
| Auth.BlockedUnverifiedRefused | src/domain/base/BaseAuthenticationUseCase.ts:141-187 | A blocked, unverified account is refused by the code login: it is not verified, no code is deleted and no token is issued. |
| Auth.OAuthUser | src/domain/base/BaseAuthenticationUseCase.ts:115-139 | The record created for a new OAuth user is verified, has the requested role and the extra data, and has no password. |
| Auth.HandleOAuthFlow | src/domain/base/BaseAuthenticationUseCase.ts:115-139 | An unknown e-mail is registered as a verified user of the role and gets tokens; a known e-mail must pass the gate first. |
| Auth.ValidateRegistrationFields | src/domain/base/BaseAuthenticationUseCase.ts:308-336 | Runs the checks in order: required fields, e-mail, password, a name of 3..20 characters, the phone when configured, the custom checks, then the role's own checks. The first failure is reported. |
| Booking.FindPayment | src/use_case/appointment/CreateAppointmentUseCase.ts:153 | Finds the payment with that id, if there is one. |
| Booking.FindPaymentByAppointmentId | src/use_case/appointment/UpdateAppointmentUseCase.ts:66 | Finds the first payment recorded for that appointment. |
| Booking.UpdatePayment | src/use_case/appointment/CreateAppointmentUseCase.ts:168 | Only the payment with that id changes; an unknown id changes nothing. |
| Booking.FindSectionByRoomId | src/infrastructure/repositories/VideoSectionRepository.ts:12-14 | Finds the session with that room id, if there is one. |
| Booking.SetSectionStatus | src/infrastructure/repositories/VideoSectionRepository.ts:20-22 | Only the status of the session with that id changes. |
| Booking.SetSectionStatusByAppointment | src/infrastructure/repositories/VideoSectionRepository.ts:28-30 | Only the status of that appointment's first session changes. |
| Booking.FindSectionByRoomIdAsWritten | src/infrastructure/repositories/VideoSectionRepository.ts:12-14 | As written, with no stored room id: the room plays no part, and the lookup finds the first session of the collection when the condition is dropped, and none when it is kept. |
| Booking.RoomMissedAsWritten | src/infrastructure/repositories/VideoSectionRepository.ts:12-14 | When another room's session is stored first, the lookup by room finds the room's session, and the lookup as written never does. |
| Booking.SetSectionStatusByAppointmentAsWritten | src/infrastructure/repositories/VideoSectionRepository.ts:28-30 | As written, with no stored appointment id: only the collection's first session can change, whatever the appointment, and nothing changes when the condition is kept. |
| Booking.OwnSectionMissedAsWritten | src/infrastructure/repositories/VideoSectionRepository.ts:28-30 | When the appointment's session is not stored first, the update by appointment changes it. The update as written leaves it as it was, and with the condition dropped changes another appointment's session. |
| Chat.FindByPair | src/infrastructure/repositories/ChatRepository.ts:36-38 | Finds the chat of that lawyer and client, if there is one. |
| Chat.FindById | src/infrastructure/repositories/ChatRepository.ts:12-14 | Finds the chat with that id, if there is one. |
| Chat.InsertChat | src/infrastructure/model/ChatModel.ts:18-42 | A chat is stored exactly when the schema's required fields are present and the pair is new. |
| Chat.CreateChat | src/use_case/chat/CreateChatUseCase.ts:18-49 | Both ids are checked. A missing client gives 404 before a missing lawyer does. On success there is exactly one chat for the pair. |
| Chat.NewPairFound | src/infrastructure/model/ChatModel.ts:42 | A chat added for a new pair is the only chat that pair finds. |
| Chat.CreateChatSucceeds | src/use_case/chat/CreateChatUseCase.ts:18-49 | Corrected: when the lawyer has a name and a profile image, the answer is the pair's chat, newly created if the pair had none. |
| Chat.CreateChatIdempotent | src/use_case/chat/CreateChatUseCase.ts:18-49 | Asking twice for the same pair gives the same chat, and the second call writes nothing. |
| Chat.CreateChatWithStore | src/use_case/chat/CreateChatUseCase.ts:18-49 | As written, over the lawyer repository's mapping, which drops the profile image: no chat is ever created or returned. |
| Chat.CreateMessage | src/use_case/chat/CreateChatUseCase.ts:50-56 | Required fields and ids are checked. The chat is touched, then the message is stored unread and returned. |
| Chat.Touch | src/infrastructure/repositories/ChatRepository.ts:16-18 | Only the `updatedAt` of the chat with that id changes. |
| Chat.IsAuthorizedInChat | src/use_case/chat/GetChatUseCase.ts:19-31 | True exactly when the chat exists and the user is its lawyer or its client. |
| Chat.GetMessagesOfChat | src/use_case/chat/GetChatUseCase.ts:51-57 | The answer is the chat with its messages; a malformed id gives 400 and an unknown chat 404. |
| Chat.MarkReceived | src/use_case/chat/GetChatUseCase.ts:59-62 | The write runs exactly when both ids are well formed. |
| Chat.GetClientsLawyer | src/use_case/chat/GetChatUseCase.ts:45-49 | Returns exactly the clients that have a profile picture and a name, in store order. |
| Chat.UnreadMap | src/use_case/chat/GetChatUseCase.ts:64-77 | A chat's count is that of the last row for it; a chat with no row has none. |
| Chat.WithNotSeen | src/use_case/chat/GetChatUseCase.ts:64-77 | Every chat is kept in order, with the last row's count, or 0 when it has no row. |
| Chat.FindAllChatsFor | src/infrastructure/repositories/ChatRepository.ts:28-34 | Returns exactly the party's chats, sorted latest `updatedAt` first. |
| Chat.GetAllChats | src/use_case/chat/GetChatUseCase.ts:33-43 | Returns the party's chats, latest first, each with its unread count. |
| Chat.ListedChats | src/use_case/chat/GetChatUseCase.ts:33-43 | The listing holds each of the party's chats and no other. |
| ChatBot.Insert | src/infrastructure/repositories/ChatBotMessageRepository.ts:8-10 | A message is appended exactly when its text is non-empty. |
| ChatBot.CreateMessage | src/use_case/chatbot/ChatBotUseCase.ts:13-24 | A failed check or reply stores nothing. On success the client's message and then the bot's reply are appended, and only the reply is returned. |
| ChatBot.GetMessagesByClientId | src/infrastructure/repositories/ChatBotMessageRepository.ts:20-22 | Returns the client's newest messages, at most `limit`, newest first; no message left out is newer than one returned. |
| ChatBot.DeleteNotInId | src/infrastructure/repositories/ChatBotMessageRepository.ts:24-26 | Keeps exactly the messages whose id is listed, whichever client they belong to. |
| ChatBot.GetMessages | src/use_case/chatbot/ChatBotUseCase.ts:26-35 | As written: the history is the client's newest 40 messages, and the store is never changed. |
| ChatBot.HistoryNeverPruned | src/use_case/chatbot/ChatBotUseCase.ts:28-33 | A client with more than 40 messages still has more than 40 after reading the history. |
| ChatBot.PruneClient | src/use_case/chatbot/ChatBotUseCase.ts:28-33 | Drops only this client's messages that are not listed; other clients' messages stay. |
| ChatBot.GetMessagesRetained | src/use_case/chatbot/ChatBotUseCase.ts:26-35 | Corrected: the same history is shown, the client's older messages are deleted, and other clients' histories are kept. |
| ClientAuth.ValidateUserSpecificFields | src/use_case/client/AuthenticationUseCase.ts:147-151 | Passes exactly when the phone is absent or has 4..15 characters. |
| ClientAuth.NewClient | src/use_case/client/AuthenticationUseCase.ts:38-43 | The stored record has the hashed password and the client role, and is unverified. |
| ClientAuth.Register | src/use_case/client/AuthenticationUseCase.ts:29-50 | Validation, the 409 for a known e-mail, the store and the mailed code, in that order; a refusal writes nothing. |
| ClientAuth.Login | src/use_case/client/AuthenticationUseCase.ts:52-61 | Both fields are required. The demo user gets its e-mail back with nothing checked; anyone else goes through the password flow as a client. |
| ClientAuth.ResendType | src/use_case/client/AuthenticationUseCase.ts:79 | The type is "login" exactly for a verified client. |
| ClientAuth.ResendOtp | src/use_case/client/AuthenticationUseCase.ts:63-81 | The four refusals are checked in order; otherwise a new code of the resend type is issued. |
| ClientAuth.ValidateOtpAndLogin | src/use_case/client/AuthenticationUseCase.ts:83-89 | A client's code login, refused with 500 unless both tokens came back. |
| ClientAuth.OtpLoginTokensPresent | src/use_case/client/AuthenticationUseCase.ts:83-89 | The 500 refusal is never reached, because the signed tokens are never empty. |
| ClientAuth.ValidateOtpForSignup | src/use_case/client/AuthenticationUseCase.ts:91-106 | A valid code stores the client as verified and deletes its codes; an invalid code writes nothing. |
| ClientAuth.OAuthSignin | src/use_case/client/AuthenticationUseCase.ts:108-121 | The OAuth flow as a client, with the profile picture as extra data. |
| ClientAuth.OAuthFirstSignInRejected | src/infrastructure/model/ClientModel.ts:7-9 | A first OAuth sign-in never succeeds and writes nothing, because the schema requires a password. |
| ClientAuth.RefreshAccessToken | src/use_case/client/AuthenticationUseCase.ts:123-128 | A refresh token is accepted exactly when it verifies and its client still exists; otherwise the answer is 401. |
| ClientAuth.ForgotPassword | src/use_case/client/AuthenticationUseCase.ts:130-141 | An unknown client gives 404; otherwise the reset mail is sent with the client's reset link. |
| ClientAuth.UpdatePassword | src/use_case/client/AuthenticationUseCase.ts:143-145 | An unknown e-mail is refused; a known one has its password replaced by the hash of the new one, through the store's password update where there is one, else through `update`. |
| ClientAuth.PasswordUpdateReadBack | src/infrastructure/repositories/ClientRepository.ts:100-102 | The next lookup of the e-mail reads the new hash, and only that client's password changes. |
| ClientAuth.RegisterStoresUnverifiedClient | src/use_case/client/AuthenticationUseCase.ts:29-50 | A registered client is stored unverified, as a client, with the hashed password and the gender from the registration data, and is found again by e-mail. |
| ClientStore.FindByEmail | src/infrastructure/repositories/ClientRepository.ts:12-20 | Finds the first client with that e-mail. |
| ClientStore.FindById | src/infrastructure/repositories/ClientRepository.ts:22-25 | Finds the client with that id. |
| ClientStore.Merge | src/infrastructure/repositories/ClientRepository.ts:91-94 | Each field the update carries is set to the carried value; each field it leaves out keeps the stored value. |
| ClientStore.Update | src/infrastructure/repositories/ClientRepository.ts:91-98 | The client with that id takes the update; other clients are unchanged; an unknown id changes nothing. |
| ClientStore.Create | src/infrastructure/model/ClientModel.ts:7-21 | A missing required field, or a gender outside the schema's enumeration, is a validation error, and a known e-mail is a duplicate error. Otherwise the client is stored with the schema's defaults and the gender the registration data carries. |
| ClientStore.FindMany | src/infrastructure/repositories/ClientRepository.ts:27-55 | The page is the window at the offset of the clients passing the filter, in store order, with totals and page flags consistent with the page arithmetic. |
| ClientStore.FindManyByLawyerId | src/infrastructure/repositories/ClientRepository.ts:57-76 | The filter is on `lawyerId`, which the client schema does not declare. So the listing holds every client (condition dropped) or none (condition kept); the total and the page flags follow. |
| ClientStore.ClientOnItsPage | src/infrastructure/repositories/ClientRepository.ts:27-55 | A client passing the filter whose rank among the matches falls on the page is listed at that position. |
| ClientStore.LawyerClientOnItsPage | src/infrastructure/repositories/ClientRepository.ts:57-76 | The lawyer id plays no part in the listing. With the condition dropped, it is the unfiltered `findMany`, and client `j` is item `j - offset` of any page that `j` falls in. |
| ClientStore.UpdateByEmail | src/infrastructure/repositories/ClientRepository.ts:78-102 | Only the first client with that e-mail changes. |
| ClientStore.MarkAsVerified | src/infrastructure/repositories/ClientRepository.ts:78-80 | Sets `isVerified` of that e-mail's client. |
| ClientStore.UpdatePassword | src/infrastructure/repositories/ClientRepository.ts:100-102 | Sets the password of that e-mail's client. |
| ClientStore.SingleFieldUpdates | src/infrastructure/repositories/ClientRepository.ts:78-102 | Each of these updates changes one field of the matching client and nothing else. |
| ClientStore.CreateThenFind | src/infrastructure/repositories/ClientRepository.ts:7-25 | A created client is found again by e-mail and by id, with the schema's defaults filled in and the gender it was given. |
| Controllers.ClampOffset | src/presentation/controllers/appointment/AppointmentControllers.ts:45 | The offset is never negative, and any non-negative value passes unchanged. |
| Controllers.ClampLimit | src/presentation/controllers/appointment/AppointmentControllers.ts:46 | The limit lies in 0..100; NaN and negative values become 10. |
| Controllers.ClampsSettle | src/presentation/controllers/appointment/AppointmentControllers.ts:42-46 | Clamping is idempotent, and a clamped value printed as a query reads back the same. |
| Controllers.StatusFilter | src/presentation/controllers/appointment/AppointmentControllers.ts:52 | The text "undefined" means no filter. |
| Controllers.GetAppointmentsLawyer | src/presentation/controllers/appointment/AppointmentControllers.ts:38-58 | Succeeds exactly for a well-formed id and an accepted status; every item listed belongs to the lawyer. |
| Controllers.GetAppointmentsClient | src/presentation/controllers/appointment/AppointmentControllers.ts:80-100 | The client's listing with clamped paging and the status filter. |
| Controllers.UndefinedStatusListsAll | src/presentation/controllers/appointment/AppointmentControllers.ts:52 | A status given as "undefined" lists the same as no status. |
| Controllers.StripeWebhook | src/presentation/controllers/appointment/AppointmentControllers.ts:26-36 | An error answers 400 with "Webhook Error: " followed by its message; otherwise the answer is 200. |
| Controllers.WebhookAnswers | src/presentation/controllers/appointment/AppointmentControllers.ts:26-36 | An unreadable event changes nothing; a readable one always answers 200. |
| Controllers.ParseFilter | src/presentation/controllers/admin/AdminLawyerController.ts:15-16 | Only the three filter names are recognised. |
| Controllers.FilterRoundTrip | src/types/index.ts:62-66 | Each filter's name reads back as that filter. |
| Controllers.GetLawyersAdmin | src/presentation/controllers/admin/AdminLawyerController.ts:9-26 | A clamped page of the lawyers in the requested category. |
| Controllers.LawyerActionBy | src/presentation/controllers/admin/AdminLawyerController.ts:28-62 | A missing id answers 400 and changes nothing; otherwise the action runs and answers with its message. |
| Controllers.LawyerActionAsWritten | src/presentation/controllers/admin/AdminLawyerController.ts:28-62 | As written, the id is read from the parameter `id`. |
| Controllers.LawyerRoutesRefusedAsWritten | src/presentation/routers/admin/AdminRoutes.ts:21-23 | Through the declared routes, every action answers 400 and changes nothing. |
| Controllers.LawyerAction' | src/presentation/controllers/admin/AdminLawyerController.ts:28-62 | Corrected: the id is read from the parameter the routes declare. |
| Controllers.LawyerRoutesReachUseCase | src/presentation/routers/admin/AdminRoutes.ts:21-23 | Through its route, each action sets its flag on the stored lawyer and answers with its message. |
| Controllers.OrDefault | src/presentation/controllers/admin/AdminClientController.ts:10-11 | NaN and 0 give the default; any other number passes, negative ones included. |
| Controllers.GetClients | src/presentation/controllers/admin/AdminClientController.ts:8-18 | The offset defaults to 0 and the limit to 10, with no cap. |
| Controllers.UpdateClientWith | src/presentation/controllers/admin/AdminClientController.ts:20-37 | A blank client id answers 400 and changes nothing; otherwise the answer names the flag that was requested. |
| Controllers.UpdateClientAsWritten | src/presentation/controllers/admin/AdminClientController.ts:20-37 | The controller over `blockUnblock` as written. |
| Controllers.UpdateClient | src/presentation/controllers/admin/AdminClientController.ts:20-37 | Corrected: the controller over `blockUnblock` storing the requested flag. |
| Controllers.RouteAsksForFlag | src/presentation/controllers/admin/AdminClientController.ts:23 | Only the block route requests the flag. |
| Controllers.BlockRequestUnblocks | src/presentation/controllers/admin/AdminClientController.ts:23-33 | As written: the block route answers "Blocked" and stores the client as unblocked, and the unblock route does the reverse. |
| Controllers.BlockRequestBlocks | src/presentation/controllers/admin/AdminClientController.ts:23-33 | Corrected: each route stores its own flag and answers with the matching message. |
| Controllers.ReadPaging | src/presentation/controllers/UnauthenticatedControllers.ts:11-12 | An absent or empty value is undefined; otherwise the value is `parseInt` of it. |
| Controllers.ParseLawyersQuery | src/presentation/controllers/UnauthenticatedControllers.ts:8-22 | The limit is checked before the offset; a query passes exactly when its limit is at least 1 and its offset at least 0. |
| Controllers.LawyersQueryRoundTrip | src/presentation/controllers/UnauthenticatedControllers.ts:10-22 | Paging printed as decimals reads back as the same numbers. |
| Controllers.GetLawyerById | src/presentation/controllers/UnauthenticatedControllers.ts:31-49 | A missing id answers 400 and an unknown lawyer 404; otherwise the answer is the lawyer. |
| CreateAppointment.ValidateAppointmentData | src/use_case/appointment/CreateAppointmentUseCase.ts:175-188 | The checks run in order, and the first failure is a 400. |
| CreateAppointment.Live | src/domain/entities/IAppointment.ts:5-11 | Keeps exactly the appointments that are not cancelled. |
| CreateAppointment.ExecWith | src/use_case/appointment/CreateAppointmentUseCase.ts:37-110 | A refusal writes nothing. Past the checks the writes go in order and a failure keeps those before it: a checkout error leaves a blank payment; an unreadable slot time leaves the appointment and the payment, and no session. A success adds one pending appointment, one payment and one session; with the status stored, the slot reads back booked. |
| CreateAppointment.Exec | src/use_case/appointment/CreateAppointmentUseCase.ts:37-95 | As written, over a slot schema without `status`: the slot check never refuses and the slots are never changed. |
| CreateAppointment.BookKeepingStatus | src/use_case/appointment/CreateAppointmentUseCase.ts:52-60 | With the status stored: a success marks the slot booked, and a slot already booked is taken again only when no appointment at all holds it on that date. |
| CreateAppointment.NoLiveBookingIff | src/use_case/appointment/CreateAppointmentUseCase.ts:52-57 | The search without cancelled appointments finds nothing exactly when no live appointment holds the slot on that date. |
| CreateAppointment.BookReleased | src/use_case/appointment/CreateAppointmentUseCase.ts:37-95 | Corrected: a booked slot is refused only for a live appointment, and a request in order for a slot with none succeeds when the checkout opens and the slot time reads. |
| CreateAppointment.ExecRefusals | src/use_case/appointment/CreateAppointmentUseCase.ts:38-57 | The errors raised before the first write, in the order they are checked; the 409 is raised exactly when the slot reads back booked and the search finds an appointment, which needs a stored status. |
| CreateAppointment.VerifyPaymentIntent | src/use_case/appointment/CreateAppointmentUseCase.ts:148-173 | An unknown payment changes nothing; otherwise the payment is completed and its appointment confirmed, and every other payment is unchanged. |
| CreateAppointment.HandleStripeWebhook | src/use_case/appointment/CreateAppointmentUseCase.ts:131-146 | A refused event is an error; an event without a payment id changes nothing; otherwise the payment is verified. |
| Dashboard.Tally | src/use_case/admin/DashboardUseCase.ts:24-41 | A gender with no matching row keeps its starting count; otherwise the count comes from the last matching row. |
| Dashboard.GenderStatisticsAsWritten | src/use_case/admin/DashboardUseCase.ts:24-41 | As written, the gender figures look for "male" and "female". |
| Dashboard.GenderFiguresAlwaysZero | src/infrastructure/model/ClientModel.ts:16 | Over the genders the schema can store, the figures as written are always 0 and 0. |
| Dashboard.GenderStatistics | src/use_case/admin/DashboardUseCase.ts:24-41 | Corrected: the figures use the schema's spelling. |
| Dashboard.GenderFiguresRead | src/use_case/admin/DashboardUseCase.ts:24-41 | With one row per gender, each figure is that row's count. |
| Dashboard.RangeCountOfAppointments | src/infrastructure/repositories/AppointmentRepository.ts:212-220 | The repository's range count is the dashboard's range count over `createdAt`. |
| Dashboard.RangeSplit | src/infrastructure/repositories/AppointmentRepository.ts:212-220 | The counts of two adjacent ranges add up to the count of their union. |
| Dashboard.MonthTotals | src/use_case/admin/DashboardUseCase.ts:70-93 | Twelve figures; each is its month's count summed over the years from two before to five after the current year. |
| Dashboard.MonthTotalsCoverSpan | src/use_case/admin/DashboardUseCase.ts:70-93 | The twelve figures sum to the count over the whole eight-year span, so each record is counted exactly once. |
| Dashboard.UsersStatistics | src/use_case/admin/DashboardUseCase.ts:43-68 | Twelve months, January first, each with its lawyers and clients. |
| Dashboard.UsersCoverSpan | src/use_case/admin/DashboardUseCase.ts:43-68 | Each user created within the span is counted exactly once. |
| Dashboard.AppointmentsPerMonth | src/use_case/admin/DashboardUseCase.ts:70-93 | Twelve months, January first, with the month names of the enumeration. |
| Dashboard.AppointmentsCoverSpan | src/use_case/admin/DashboardUseCase.ts:70-93 | The figures add up to the repository's range count over the span. |
| Dashboard.AppointmentsByStatus | src/use_case/admin/DashboardUseCase.ts:99-109 | One entry per status, in enumeration order, each with that status's count. |
| Dashboard.StatusFiguresCoverTable | src/use_case/admin/DashboardUseCase.ts:99-109 | The status figures add up to the number of appointments. |
| Email.TemplateFor | src/infrastructure/services/EmailService.ts:36-45 | "login" and "reset" get their own templates; every other type gets the default template. |
| Email.SubjectFor | src/infrastructure/services/EmailService.ts:53-54 | "reset" is a password reset and "register" an e-mail verification; every other type gets an OTP subject. |
| Email.ResetRequest | src/use_case/client/AuthenticationUseCase.ts:134-140 | A reset mail carries no code and no year. |
| Email.SendMail | src/infrastructure/services/EmailService.ts:15-32 | An empty template path falls back to the default template. |
| Email.OtpRequest | src/infrastructure/services/EmailService.ts:50-58 | The mail carries the code as a number and the year. |
| Email.SendOtp | src/infrastructure/services/EmailService.ts:34-59 | The delivery for an OTP mail. |
| Email.OtpTypesTable | src/infrastructure/services/EmailService.ts:36-54 | The template and subject that each of the four OTP types gets. |
| Email.OtpMailNamesTemplate | src/infrastructure/services/EmailService.ts:16-18 | An OTP mail always names a template. |
| Email.MailedCodeReadsBack | src/infrastructure/services/EmailService.ts:56 | The mailed number prints back as the issued code. |
| GetAppointment.GetAppointmentsByLawyerId | src/use_case/appointment/GetAppointmentUseCase.ts:15-30 | Checks the id and the status, then lists the lawyer's appointments; the drop of unpaid ones removes nothing. |
| GetAppointment.GetAppointmentDetails | src/use_case/appointment/GetAppointmentUseCase.ts:32-35 | A malformed id gives 400; otherwise the appointment with that id. |
| GetAppointment.GetSuccessPageDetails | src/use_case/appointment/GetAppointmentUseCase.ts:46-65 | The answer is the payment's appointment, for a payment made no more than ten minutes ago. |
| GetAppointment.SuccessPageWindowEdge | src/use_case/appointment/GetAppointmentUseCase.ts:55-62 | The page is readable up to exactly ten minutes after the payment, and refused one millisecond later. |
| LawyerAuth.ValidateUserSpecificFields | src/use_case/lawyer/AuthenticationUseCase.ts:154-168 | Checks the phone length, each qualification's length, and that a given list is not empty. |
| LawyerAuth.Login | src/use_case/lawyer/AuthenticationUseCase.ts:32-43 | The shared password flow for the lawyer role. |
| LawyerAuth.AsCustom | src/use_case/lawyer/AuthenticationUseCase.ts:45-56 | A `CustomError` passes on unchanged; anything else becomes 401. |
| LawyerAuth.ValidateOtpAndLogin | src/use_case/lawyer/AuthenticationUseCase.ts:45-56 | Every failure it reports is a `CustomError`. |
| LawyerAuth.ResendOtp | src/use_case/lawyer/AuthenticationUseCase.ts:58-74 | Refuses an unknown or already verified lawyer; otherwise issues a 10-minute verification code. |
| LawyerAuth.CreatedMessage | src/use_case/lawyer/AuthenticationUseCase.ts:76-89 | The message names the new id. |
| LawyerAuth.DuplicateAsConflict | src/use_case/lawyer/AuthenticationUseCase.ts:76-89 | A duplicate-key error becomes 409 and any other error passes on. |
| LawyerAuth.Register | src/use_case/lawyer/AuthenticationUseCase.ts:76-89 | Validates the fields, then stores the lawyer with the hashed password. |
| LawyerAuth.QualificationsRequired | src/use_case/lawyer/AuthenticationUseCase.ts:154-168 | An empty qualification list is refused; a missing list is accepted here. |
| LawyerAuth.UpdateProfileImage | src/use_case/lawyer/AuthenticationUseCase.ts:100-116 | Checks the id and finds the lawyer, deletes the old image if there is one, and stores the new URL. |
| LawyerAuth.OldKeyOfImageUrl | src/use_case/lawyer/AuthenticationUseCase.ts:100-116 | A stored image URL gives back the object key it was built from. |
| LawyerAuth.StoredImageNeverDeleted | src/infrastructure/repositories/LawyerRepository.ts:154-167 | With the repository's mapping, which hides the stored image, the old image is never deleted. |
| LawyerAuth.RefreshToken | src/use_case/lawyer/AuthenticationUseCase.ts:118-127 | Every failure is 401 "Failed to refresh token". |
| LawyerAuth.ForgotPassword | src/use_case/lawyer/AuthenticationUseCase.ts:129-144 | An unknown lawyer gives 404; a failed mail gives 500. |
| LawyerAuth.UpdatePassword | src/use_case/lawyer/AuthenticationUseCase.ts:146-152 | Every failure is 500 "Failed to update password". |
| LawyerAuth.PasswordUpdateReadBack | src/domain/base/BaseAuthenticationUseCase.ts:286-297 | The next password login compares against the new hash. |
| LawyerAuth.PasswordLoginRefusedAsWritten | src/infrastructure/repositories/LawyerRepository.ts:154-167 | As written, the login lookup hands out no password, so every password login is refused. |
| LawyerAuth.PasswordLoginAccepted | src/domain/base/BaseAuthenticationUseCase.ts:98-113 | Corrected: a verified, unblocked lawyer with the right password is sent a login code. |
| LawyerAuth.OtpLoginDoesNotPersistVerification | src/infrastructure/repositories/LawyerRepository.ts:109-128 | An unverified lawyer who logs in with a code is let in but stays unverified in the store. |
| LawyerStore.ToLawyer | src/infrastructure/repositories/LawyerRepository.ts:154-167 | Missing fields get their defaults, and no password is exposed. |
| LawyerStore.FindByEmail | src/infrastructure/repositories/LawyerRepository.ts:7-39 | Finds the first lawyer whose user has that e-mail. |
| LawyerStore.FindByEmailWithCredentials | src/infrastructure/repositories/LawyerRepository.ts:24-39 | Corrected: the same lawyer as `FindByEmail`, with the stored password. |
| LawyerStore.FindById | src/infrastructure/repositories/LawyerRepository.ts:41-52 | Finds the lawyer with that id, if there is one. |
| LawyerStore.Create | src/infrastructure/repositories/LawyerRepository.ts:86-107 | Stores the lawyer row and its user with their defaults; a duplicate e-mail writes nothing. |
| LawyerStore.UpdateRowAsWritten | src/infrastructure/repositories/LawyerRepository.ts:109-128 | As written, the verification and block flags are not among the fields written. |
| LawyerStore.UpdateAsWritten | src/infrastructure/repositories/LawyerRepository.ts:109-128 | As written: only the row with that id changes, and it changes by `UpdateRowAsWritten`. |
| LawyerStore.UpdateRow | src/infrastructure/repositories/LawyerRepository.ts:109-128 | Corrected: the flags the update carries are written too. |
| LawyerStore.Update | src/infrastructure/repositories/LawyerRepository.ts:109-132 | Corrected: only the row with that id changes; an unknown id is an error. |
| LawyerStore.ReverseIsNewestFirst | src/infrastructure/repositories/LawyerRepository.ts:54-84 | In a store kept in creation order, the reversed rows are newest first. |
| LawyerStore.FindMany | src/infrastructure/repositories/LawyerRepository.ts:54-84 | Every lawyer, newest first, one page at a time, whatever the flags. |
| LawyerStore.FindManyFiltered | src/infrastructure/repositories/LawyerRepository.ts:54-84 | Corrected: only the lawyers passing the flags, and the total counts them. |
| LawyerStore.FlagUpdatesLost | src/infrastructure/repositories/LawyerRepository.ts:109-132 | As written, verifying, blocking or unblocking a lawyer leaves every row unchanged. |
| LawyerStore.FlagUpdatesKept | src/infrastructure/repositories/LawyerRepository.ts:109-132 | Corrected: the next lookup reads back the flag that was set. |
| LegalHistory.FindById | src/infrastructure/repositories/LegalHistoryRepository.ts:7-11 | Finds the record with that id, if there is one. |
| LegalHistory.FindManyByClientId | src/infrastructure/repositories/LegalHistoryRepository.ts:13-37 | The page is the window at the offset of the client's records, newest first; the total counts them all. |
| LegalHistory.FindManyByLawyerId | src/infrastructure/repositories/LegalHistoryRepository.ts:39-63 | The same listing over the lawyer's records. |
| LegalHistory.RecordOnItsPage | src/infrastructure/repositories/LegalHistoryRepository.ts:13-63 | A record whose rank among the newer records of its client (or lawyer) falls on the page is listed at that position. |
| LegalHistory.ListingsNewestFirst | src/infrastructure/repositories/LegalHistoryRepository.ts:13-63 | When the table is kept in creation order, both listings come newest first. |
| LegalHistory.Create | src/infrastructure/repositories/LegalHistoryRepository.ts:65-69 | Appends one record with the new id and the creation time. |
| LegalHistory.Update | src/infrastructure/repositories/LegalHistoryRepository.ts:71-76 | The record keeps its id and creation time; an unknown id is an error. |
| LegalHistory.DeleteById | src/infrastructure/repositories/LegalHistoryRepository.ts:78-82 | The first record with that id is removed and the others keep their order; an unknown id is an error. |
| LegalHistory.CreateFindDelete | src/infrastructure/repositories/LegalHistoryRepository.ts:7-82 | A deleted record is gone, and a created one is found by its new id. |
| Lifecycle.PaidBookingIsConfirmed | src/use_case/appointment/CreateAppointmentUseCase.ts:131-173 | After a booking and then its webhook, the payment is completed and the appointment confirmed. |
| Lifecycle.UnpaidBookingNotListed | src/infrastructure/repositories/AppointmentRepository.ts:138-181 | A booking that is waiting for payment shows in neither listing. |
| Lifecycle.BookingRecords | src/use_case/appointment/CreateAppointmentUseCase.ts:37-95 | A booking leaves one new appointment, one new payment and one session. |
| Lifecycle.WebhookCompletesNewest | src/use_case/appointment/CreateAppointmentUseCase.ts:148-173 | The webhook completes the newest payment in place and records the charge. |
| Lifecycle.ClientCancelRefunds | src/use_case/appointment/UpdateAppointmentUseCase.ts:43-79 | A client's cancellation refunds the recorded charge and amount, cancels the session and notifies both parties. |
| Lifecycle.CancelRefundsBooking | src/use_case/appointment/UpdateAppointmentUseCase.ts:43-79 | After a booking, payment and cancellation, the whole amount is refunded. |
| Lifecycle.BookedSessionKeptAsWritten | src/use_case/appointment/CreateAppointmentUseCase.ts:114-128 | With another appointment's session stored first, cancelling a new booking by a stored appointment id cancels the booking's session. As written, that session stays pending. |
| Lifecycle.CancelledSlotStaysTaken | src/use_case/appointment/CreateAppointmentUseCase.ts:52-57 | With the status stored but the search as written, a cancelled slot is refused to every client as already booked. |
| Lifecycle.DoubleBookedAsWritten | src/use_case/appointment/CreateAppointmentUseCase.ts:52-60 | As written, a second client booking the same slot for the same date succeeds, and both appointments stand. |
| Lifecycle.SecondBookingRefused | src/use_case/appointment/CreateAppointmentUseCase.ts:52-57 | Corrected: once the status is stored, a slot held by a live appointment is refused for that date. |
| Lifecycle.ReleasedBookingRecords | src/use_case/appointment/CreateAppointmentUseCase.ts:37-95 | A successful corrected booking leaves one new appointment and marks the slot booked. |
| Lifecycle.ClientCancelsNewest | src/use_case/appointment/UpdateAppointmentUseCase.ts:43-51 | Exactly the newest appointment is cancelled, and the slots are unchanged. |
| Lifecycle.CancelledSlotReleased | src/use_case/appointment/CreateAppointmentUseCase.ts:52-57 | Corrected: a cancelled slot can be booked again on that date. |
| Middleware.TokenString | src/presentation/middlewares/BaseAuthMiddleware.ts:17-18 | Takes either header spelling, and the first entry of a list. |
| Middleware.Authenticate | src/presentation/middlewares/BaseAuthMiddleware.ts:15-49 | Checks the bearer prefix, the token, the claims and the role in order, each with its own status. |
| Middleware.ClientMiddleware | src/presentation/middlewares/ClientAuthMiddleware.ts:11-13 | Only the client role passes. |
| Middleware.BearerRoundTrip | src/presentation/middlewares/BaseAuthMiddleware.ts:20-29 | "Bearer <token>" yields the token itself, for a non-empty token without spaces. |
| Middleware.ClientTokenAdmitted | src/presentation/middlewares/BaseAuthMiddleware.ts:15-49 | A complete client token is let through with its e-mail and id. |
| Middleware.OtherRoleForbidden | src/presentation/middlewares/BaseAuthMiddleware.ts:37-39 | A token of another role is refused with 403. |
| MongoUri.EncodeUriComponent | src/config/prisma.ts:22 | Unreserved characters pass unchanged; every other character becomes the percent escapes of its UTF-8 bytes. |
| MongoUri.EncodedClean | src/config/prisma.ts:22 | The escaped text holds no `:`, `@` or `/`. |
| MongoUri.EncodeUnreserved | src/config/prisma.ts:22 | A string of unreserved characters is its own encoding. |
| MongoUri.DecodeEncodeAscii | src/config/prisma.ts:22 | Decoding undoes the encoding of an ASCII string. |
| MongoUri.EncodeMongoUri | src/config/prisma.ts:4-38 | Only the password field is escaped, and a URI without `@` is left unchanged. |
| MongoUri.Reassemble | src/config/prisma.ts:4-38 | The URI is its auth part's fields and its host put back together. |
| MongoUri.UnreservedPasswordKept | src/config/prisma.ts:4-38 | A password that needs no escaping leaves the URI unchanged. |
| MongoUri.SchemeFields | src/config/prisma.ts:10-20 | In a `mongodb://` URI, the protocol field is "mongodb". |
| MongoUri.Reparse | src/config/prisma.ts:4-38 | The rewritten URI splits the same way as the original. |
| MongoUri.FirstAtDelimits | src/config/prisma.ts:4-38 | Exactly the password is escaped, and everything else is kept. |
| MongoUri.SpaceEscaped | src/config/prisma.ts:22 | A space becomes `%20`. |
| Numbers.ParseInt | src/presentation/controllers/UnauthenticatedControllers.ts:11-12 | Skips leading whitespace and one sign, then reads the longest run of digits; no digit gives NaN. |
| Numbers.ToNumber | src/presentation/controllers/admin/AdminClientController.ts:10-11 | Reads the trimmed text as a signed integer; empty text is 0 and anything else is NaN. |
| Numbers.ParseIntStopsAtNonDigit | src/presentation/controllers/UnauthenticatedControllers.ts:11-12 | `parseInt` stops at the first non-digit. |
| Numbers.ToNumberDigits | src/presentation/controllers/appointment/AppointmentControllers.ts:42-43 | `+s` reads a digit string as its decimal value. |
| Numbers.ReadDecimal | src/presentation/controllers/appointment/AppointmentControllers.ts:42-43 | Both readings give back a printed decimal. |
| Numbers.ParseIntIgnoresTrailing | src/presentation/controllers/UnauthenticatedControllers.ts:11-12 | A printed number followed by text that does not start with a digit reads back as that number under `parseInt`. |
| Numbers.ToNumberRejectsTrailing | src/presentation/controllers/appointment/AppointmentControllers.ts:42-43 | The same number followed by non-empty text that starts with a non-digit and does not end in whitespace is NaN under `+s`. |
| Numbers.EmptyTextDiffers | src/presentation/controllers/admin/AdminClientController.ts:10-11 | Empty text is 0 for `+s` but NaN for `parseInt`. |
| OtpStore.Create | src/infrastructure/repositories/OtpRepository.ts:6-8 | Appends one record and keeps every earlier one. |
| OtpStore.FindByEmail | src/infrastructure/repositories/OtpRepository.ts:15-18 | Finds the newest record for the e-mail. |
| OtpStore.FindOne | src/infrastructure/repositories/OtpRepository.ts:10-13 | Finds a record whose code and e-mail both match. |
| OtpStore.DeleteByEmail | src/infrastructure/repositories/OtpRepository.ts:20-26 | Removes every record for the e-mail and keeps every other one. |
| OtpStore.CreateThenFind | src/infrastructure/repositories/OtpRepository.ts:6-18 | The newest code wins, and other e-mails are unaffected. |
| OtpStore.DeleteThenFind | src/infrastructure/repositories/OtpRepository.ts:15-26 | After deletion nothing is found for the e-mail, and other e-mails are unaffected. |
| OtpStore.DeleteAppend | src/infrastructure/repositories/OtpRepository.ts:6-26 | Deleting distributes over appending one record. |
| OtpStore.FindOneOfNewest | src/infrastructure/repositories/OtpRepository.ts:10-18 | `findOne` finds the e-mail's newest code, and only codes stored for that e-mail. |
| OtpStore.NewestIsLatest | src/infrastructure/repositories/OtpRepository.ts:15-18 | When records are stamped in creation order, the newest record carries the latest `createdAt`. |
| OtpStore.CreateKeepsChronological | src/infrastructure/repositories/OtpRepository.ts:6-8 | Stamping a record no earlier than the stored ones keeps the store chronological. |
| Pagination.Window | src/infrastructure/repositories/ClientRepository.ts:38 | Skips `skip` items and takes at most `take`, keeping their order. |
| Pagination.CurrentPage | src/infrastructure/repositories/ClientRepository.ts:42 | The page the offset falls in, counting from 1. |
| Pagination.TotalPages | src/infrastructure/repositories/ClientRepository.ts:43 | The fewest pages that hold every match. |
| Pagination.Paginate | src/infrastructure/repositories/ClientRepository.ts:37-54 | A page of the matches, with the page arithmetic that goes with it. |
| Pagination.NextPageMeansMore | src/infrastructure/repositories/ClientRepository.ts:44-45 | On a page boundary, a next page is announced exactly when matches remain, and a previous page exactly when this is not the first page. |
| Pagination.PagesTile | src/infrastructure/repositories/ClientRepository.ts:37-45 | Consecutive pages tile the matches. |
| SlotRules.ValidateWithRules | src/domain/base/BaseSlotUseCase.ts:22-28 | The rules run in order, and the first failing rule decides the outcome. |
| SlotRules.RuleMessagesUnreachable | src/domain/base/BaseSlotUseCase.ts:22-28 | A failure is always the validator's own error, never the rule's message. |
| SlotRules.CheckStartTime | src/domain/base/BaseSlotUseCase.ts:30-49 | The error for one slot with a missing or malformed start time. |
| SlotRules.ValidateSlotStartTimes | src/domain/base/BaseSlotUseCase.ts:30-49 | The first slot with a bad start time decides the error. |
| SlotRules.ValidateSlotIds | src/domain/base/BaseSlotUseCase.ts:51-59 | Passes exactly when every id is 24 hexadecimal digits. |
| SlotRules.ValidateSlotId | src/domain/base/BaseSlotUseCase.ts:61-69 | Passes exactly on 24 hexadecimal digits. |
| SlotCases.NewSlots | src/use_case/slot/CreateSlotUseCase.ts:19-25 | Each slot keeps its times and takes the lawyer, the day and a fresh id. |
| SlotCases.CreateManyByDay | src/use_case/slot/CreateSlotUseCase.ts:15-39 | A refusal writes nothing; otherwise the slots are inserted in order. |
| SlotCases.Store | src/infrastructure/repositories/SlotRepository.ts:9-11 | The slots before the first clash are written, and the clash is the error. |
| SlotCases.InsertedWellTimed | src/use_case/slot/CreateSlotUseCase.ts:28-39 | What an accepted batch adds is well timed, belongs to the lawyer and is not booked. |
| SlotCases.GoodTimes | src/domain/base/BaseSlotUseCase.ts:30-49 | A start time passes exactly when its format does. |
| SlotCases.CheckTimes | src/use_case/slot/CreateSlotUseCase.ts:42-45 | The first failure is always the format's. |
| SlotCases.CreateForDays | src/use_case/slot/CreateSlotUseCase.ts:58-61 | The days are handled in turn and the loop stops at the first failure. |
| SlotCases.BatchFits | src/infrastructure/model/SlotModel.ts:24 | Distinct, new times fit the unique index. |
| SlotCases.CreateForDaysSucceeds | src/use_case/slot/CreateSlotUseCase.ts:41-62 | Succeeds when nothing clashes. |
| SlotCases.WholeWeek | src/use_case/slot/CreateSlotUseCase.ts:41-62 | On success, every time is offered on every day. |
| SlotCases.CreateForAllDays | src/use_case/slot/CreateSlotUseCase.ts:41-62 | Every time is checked first; then each day, Sunday first, gets one slot per time. |
| SlotCases.CreateManyByDayAsWritten | src/use_case/slot/CreateSlotUseCase.ts:28-39 | Over the schema as declared, checked inputs of which one has no end time fail validation and write nothing. |
| SlotCases.CreateForDaysAsWritten | src/use_case/slot/CreateSlotUseCase.ts:58-61 | As written, the loop never writes, and passes only with no days or no times. |
| SlotCases.CreateForAllDaysAsWritten | src/use_case/slot/CreateSlotUseCase.ts:41-62 | As written, the whole-week creation writes nothing and fails for every list of well-formed times that is not empty. |
| SlotCases.WeekLostAsWritten | src/use_case/slot/CreateSlotUseCase.ts:47-56 | A request the corrected schema fills the week with fails as written, with the table untouched. |
| SlotCases.Cascade | src/use_case/slot/DeleteSlotUseCase.ts:24-43 | The targeted slots and their appointments go, and each affected client gets a notice. |
| SlotCases.NothingTargeted | src/use_case/slot/DeleteSlotUseCase.ts:30 | With nothing targeted, nothing changes. |
| SlotCases.AffectedCount | src/use_case/slot/DeleteSlotUseCase.ts:31-40 | As many appointments are affected as are booked in the targeted slots. |
| SlotCases.NoticesOfAffected | src/use_case/slot/DeleteSlotUseCase.ts:33-39 | Each notice is for an affected appointment. |
| SlotCases.AffectedNoticed | src/use_case/slot/DeleteSlotUseCase.ts:33-39 | Each affected appointment has its notice. |
| SlotCases.DeleteMany | src/use_case/slot/DeleteSlotUseCase.ts:20-44 | The input is checked before any lookup; then the cascade runs. |
| SlotCases.DeleteForDays | src/use_case/slot/DeleteSlotUseCase.ts:63-66 | The days are handled in turn and the loop stops at the first failure. |
| SlotCases.NoDays | src/use_case/slot/DeleteSlotUseCase.ts:63-66 | Deleting over no days deletes nothing. |
| SlotCases.LaterDeletes | src/use_case/slot/DeleteSlotUseCase.ts:63-66 | One turn of the loop composes into a deletion over all the days. |
| SlotCases.DeleteForAllDays | src/use_case/slot/DeleteSlotUseCase.ts:46-67 | Every time is checked first; then each day loses the lawyer's slots at those times. |
| SlotCases.WeekCleared | src/use_case/slot/DeleteSlotUseCase.ts:46-67 | No slot of the lawyer at those times is left on any day. |
| SlotCases.GetAllSlots | src/use_case/slot/GetSlotUseCase.ts:14-17 | A malformed id gives 400; otherwise all of the lawyer's slots. |
| SlotCases.ParseDay | src/use_case/slot/GetSlotUseCase.ts:20 | The day a value of the enumeration names. |
| SlotCases.ParseDayName | src/use_case/slot/GetSlotUseCase.ts:20 | Each day's name reads back as that day. |
| SlotCases.GetSlotsByDay | src/use_case/slot/GetSlotUseCase.ts:19-23 | The day is checked first, then the id; the result is the lawyer's slots on that day. |
| SlotCases.ReadingOf | src/use_case/slot/GetSlotUseCase.ts:55-65 | The 12-hour reading of a minute of the day. |
| SlotCases.ClockBijection | src/use_case/slot/GetSlotUseCase.ts:55-65 | On 12-hour readings, the conversion is a bijection onto the minutes of the day. |
| SlotCases.ClockCollisions | src/use_case/slot/GetSlotUseCase.ts:55-65 | Hours 00 and 13..23 collide with 12-hour readings. |
| SlotCases.GetSlotsByDate | src/use_case/slot/GetSlotUseCase.ts:25-53 | The lawyer's free slots on the weekday of the date, sorted earliest first. |
| SlotCases.BookedIds | src/use_case/slot/GetSlotUseCase.ts:30-31 | The excluded ids are exactly those of slots booked from the date on. |
| SlotStore.InsertMany | src/infrastructure/repositories/SlotRepository.ts:9-11 | An ordered insert that stops at the first duplicate key and keeps what went in before it. |
| SlotStore.InsertManyAsDeclared | src/infrastructure/model/SlotModel.ts:12-13 | Over the schema as declared, a batch with a slot lacking either time fails validation as a whole and writes nothing. |
| SlotStore.FindById | src/infrastructure/repositories/SlotRepository.ts:35-37 | Finds the slot with that id, if there is one. |
| SlotStore.MarkBooked | src/infrastructure/repositories/SlotRepository.ts:77-79 | Only that slot becomes booked. |
| SlotStore.FindSlotIdsByStartTimes | src/infrastructure/repositories/SlotRepository.ts:17-24 | The ids of the lawyer's slots on that day at those times. |
| SlotStore.FindMany | src/infrastructure/repositories/SlotRepository.ts:26-28 | All of the lawyer's slots. |
| SlotStore.FindManyByDay | src/infrastructure/repositories/SlotRepository.ts:30-33 | The lawyer's slots on that day. |
| SlotStore.FindManyByDaysAndTimes | src/infrastructure/repositories/SlotRepository.ts:39-45 | The lawyer's slots on any of the days at any of the times. |
| SlotStore.FindManyNotInSlotIds | src/infrastructure/repositories/SlotRepository.ts:47-53 | The lawyer's slots on the day, less the excluded ids. |
| SlotStore.DeleteMany | src/infrastructure/repositories/SlotRepository.ts:13-15 | Exactly the slots with those ids are removed. |
| SlotStore.SlotsOn | src/infrastructure/repositories/SlotRepository.ts:55-71 | The number of slots on a day; the seven days' numbers add up to the whole collection. |
| SlotStore.DayTotals | src/infrastructure/repositories/SlotRepository.ts:55-71 | One row for every day. |
| SlotStore.SlotUsageCount | src/infrastructure/repositories/SlotRepository.ts:55-71 | One row per day that holds slots, with its count. |
| SlotStore.DayCountsCoverTable | src/infrastructure/repositories/SlotRepository.ts:55-71 | The counts of the seven days add up to the number of slots. |
| SlotStore.UsageCoversTable | src/infrastructure/repositories/SlotRepository.ts:55-71 | The rows of the usage count, with or without the empty days, add up to the number of slots. |
| SlotStore.DeleteKeepsIndex | src/infrastructure/model/SlotModel.ts:24 | Deletion keeps the unique index, and an insert that fits makes its slots findable. |
| Slots.UtcWeekday | src/use_case/slot/GetSlotUseCase.ts:67-71 | The UTC weekday of a date, with 0 for Sunday. |
| Slots.DayOfDate | src/use_case/slot/GetSlotUseCase.ts:67-71 | The day of the date's weekday. |
| Slots.DayIndex | src/use_case/slot/GetSlotUseCase.ts:69-70 | A day's position in the enumeration. |
| Slots.DaysDistinct | src/use_case/slot/GetSlotUseCase.ts:69-70 | Each day occurs exactly once. |
| Slots.WeekdayPeriodic | src/use_case/slot/GetSlotUseCase.ts:67-71 | The weekday repeats every seven days. |
| Slots.EpochWeekdays | src/use_case/slot/GetSlotUseCase.ts:67-71 | 1970-01-01 was a Thursday. |
| UpdateAppointment.HandleCancellation | src/use_case/appointment/UpdateAppointmentUseCase.ts:54-79 | The client is notified, the session is cancelled, the payment is refunded, and the lawyer is notified when asked. |
| UpdateAppointment.AfterStatus | src/use_case/appointment/UpdateAppointmentUseCase.ts:28-39 | Cancelling runs the cancellation, and confirming notifies the client. |
| UpdateAppointment.UpdateStatus | src/use_case/appointment/UpdateAppointmentUseCase.ts:22-40 | A refusal writes nothing; otherwise the appointment takes the status. |
| UpdateAppointment.LawyerStatusNotices | src/use_case/appointment/UpdateAppointmentUseCase.ts:22-40 | The lawyer confirming a stored appointment confirms it and tells its client. The lawyer cancelling it cancels it and tells only the client. |
| UpdateAppointment.UpdateStatusAndNote | src/use_case/appointment/UpdateAppointmentUseCase.ts:43-51 | The appointment takes the status and the notes; the id is not checked. |
| UpdateAppointment.UpdateCompleteSection | src/use_case/appointment/UpdateAppointmentUseCase.ts:81-91 | An unknown room is an error; once the session's start time has come, the appointment and the session are completed. |
| UpdateAppointment.HandleCancellationAsWritten | src/use_case/appointment/UpdateAppointmentUseCase.ts:54-79 | As written: the notices and the refund are those of the corrected cancellation. The session update can only reach the collection's first session, and reaches none when the condition is kept. |
| UpdateAppointment.CancellationMissesOwnSessionAsWritten | src/use_case/appointment/UpdateAppointmentUseCase.ts:62-64 | When the appointment's session is not stored first, the corrected cancellation cancels it. As written, it stays pending, and with the condition dropped another appointment's session is cancelled. |
| UpdateAppointment.UpdateCompleteSectionAsWritten | src/use_case/appointment/UpdateAppointmentUseCase.ts:81-91 | As written: the room is refused exactly when the condition is kept or there is no session. Otherwise, once the first session's start has come, that session and the collection's first appointment are completed. |
| UpdateAppointment.RoomNotCompletedAsWritten | src/use_case/appointment/UpdateAppointmentUseCase.ts:81-91 | When neither the room's session nor its appointment is stored first, the corrected step completes that appointment. As written, neither the session nor its appointment changes. |
| Validators.FormatTime | src/infrastructure/services/JoiService.ts:9 | The text of a clock reading. |
| Validators.ParseTime | src/infrastructure/services/JoiService.ts:9 | Reads a clock text with an hour of at most 23 and a minute of at most 59. |
| Validators.PatternCheck | src/infrastructure/services/JoiService.ts:24-41 | A pattern check passes exactly on non-empty text that matches. |
| Validators.ValidateIdFormat | src/infrastructure/services/JoiService.ts:74-76 | Passes exactly on 24 hexadecimal digits. |
| Validators.ValidateMultipleIds | src/infrastructure/services/JoiService.ts:78-82 | Passes exactly when every element is an id. |
| Validators.ValidateTimeFormat | src/infrastructure/services/JoiService.ts:94-100 | Passes exactly on the texts `ParseTime` reads. |
| Validators.ValidatePassword | src/infrastructure/services/JoiService.ts:108-114 | Passes exactly on strong passwords. |
| Validators.ValidateOtpCode | src/infrastructure/services/JoiService.ts:121-127 | Passes exactly on six digits. |
| Validators.ValidateLength | src/infrastructure/services/JoiService.ts:64-72 | Passes exactly on non-empty text of a length between the bounds. |
| Validators.ValidatePhoneNumber | src/infrastructure/services/JoiService.ts:84-87 | Passes exactly on 4 to 15 characters of any kind. |
| Validators.ValidateEnum | src/infrastructure/services/JoiService.ts:102-106 | Passes exactly on a listed value. |
| Validators.ValidateRequiredFields | src/infrastructure/services/JoiService.ts:43-57 | Passes exactly when every field is present. |
| Validators.ValidateEmailFormat | src/infrastructure/services/JoiService.ts:59-62 | Passes exactly on e-mails the grammar accepts. |
| Validators.ValidateDateFormat | src/infrastructure/services/JoiService.ts:89-92 | Passes exactly on dates the grammar accepts. |
| Validators.ValidateBoolean | src/infrastructure/services/JoiService.ts:116-119 | A boolean always passes. |
| Validators.IdPatternMeaning | src/infrastructure/services/JoiService.ts:8 | The id pattern accepts exactly 24 hexadecimal digits. |
| Validators.TimePatternMeaning | src/infrastructure/services/JoiService.ts:9 | The time pattern accepts exactly what `ParseTime` reads. |
| Validators.PasswordPatternMeaning | src/infrastructure/services/JoiService.ts:10 | The password pattern accepts exactly strong passwords. |
| Validators.OtpPatternMeaning | src/infrastructure/services/JoiService.ts:11 | The OTP pattern accepts exactly non-empty digit strings. |
| Validators.TimeRoundTrip | src/infrastructure/services/JoiService.ts:9 | `FormatTime` and `ParseTime` are inverses. |
| Validators.TimeAcceptsTwentyFourHourFields | src/infrastructure/services/JoiService.ts:9 | The time check accepts hours that AM/PM notation cannot mean. |
| Validators.TimeLengthRuleRedundant | src/use_case/slot/CreateSlotUseCase.ts:42-45 | The extra length check never fails after the format check. |
| Validators.EmptyFailsLength | src/infrastructure/services/JoiService.ts:64-72 | The empty string fails every length check. |
| Video.FindSectionById | src/infrastructure/repositories/VideoSectionRepository.ts:16-18 | Finds the session with that id, if there is one. |
| Video.FindByStartTimeRange | src/infrastructure/repositories/VideoSectionRepository.ts:44-64 | The party's sessions starting within the range. |
| Video.FilterByConfirmed | src/use_case/video/GetVideoSectionUseCase.ts:73-79 | The sessions whose appointment is confirmed. |
| Video.GetUpcomingSections | src/use_case/video/GetVideoSectionUseCase.ts:32-71 | The confirmed sessions of the coming two days. |
| Video.GetUpcomingSectionsAsWritten | src/use_case/video/GetVideoSectionUseCase.ts:32-71 | As written, with no stored appointment id: a window holding any of the party's sessions throws the `TypeError` of `appointmentId!.toString()`. An empty window answers no session. |
| Video.UpcomingLostAsWritten | src/use_case/video/GetVideoSectionUseCase.ts:41-48 | A party with an upcoming confirmed session is shown it by the corrected query, and gets the `TypeError` as written. |
| Video.FetchedConfirmed | src/use_case/video/GetVideoSectionUseCase.ts:41-45 | Fetching by id loses none of the confirmed appointments. |
| Video.ShownAreUpcoming | src/use_case/video/GetVideoSectionUseCase.ts:32-71 | The sessions shown are exactly the upcoming confirmed ones. |
| Video.GetSectionsByLawyerId | src/use_case/video/GetVideoSectionUseCase.ts:20-30 | The first ten pending sessions from now on. |
| Video.GetSectionsByLawyerIdAsWritten | src/use_case/video/GetVideoSectionUseCase.ts:20-30 | As written, the lawyer is never shown a session, because no stored start time reaches the cast current time. |
| Video.PendingSessionsLostAsWritten | src/use_case/video/GetVideoSectionUseCase.ts:22-25 | A lawyer with a pending session ahead sees at least one under the time bound, and none as written. |
| Video.GetSectionById | src/use_case/video/GetVideoSectionUseCase.ts:15-18 | A malformed id gives 400; otherwise the session with that id. |

## Left out

- Transport is not modelled. That covers HTTP routing and wiring, sockets, dependency injection, cookies, logging and the health check. The controllers are modelled only through their parameter handling and answers.
- The clock, fresh ids, random draws, hashing, token signing, the mail service, the payment gateway, object storage and the chatbot's reply generator are not modelled. Each is a parameter of the operation that uses it.
- Dates and times are integers, either epoch milliseconds or epoch days. `date-fns` and the calendar are a parameter `cal`.
- MongoDB's own behaviour is not modelled: a cast error on a malformed id and the order of aggregation groups. Each query is its filter over the collection in store order.
- A zero or negative page limit is not modelled. The source divides by it and passes negative values to MongoDB; the model requires a limit of at least 1 where the page arithmetic needs it.
- JavaScript's non-integer numbers and `Infinity` are not modelled. Query numbers are integers or NaN (`None`).
- The message collection and its repository are not part of this model. Unread counts, `markAsRead` and `findByChatId` are parameters.
- The payment repository is not part of this model. Payments are modelled only through the fields the use cases read and write.
- The slot schema declares no `status` field but requires `endTime` (see Findings). The members below model the corrected schema, which stores the status and leaves `endTime` optional; no use case reads a slot's end time. The as-written behaviour is modelled by `Exec`, `InsertManyAsDeclared` and the `AsWritten` members.
- SlotStore.MarkBooked: models the write with `status` declared. Under the schema as declared the write is dropped.
- SlotStore.FindManyByDay: the status narrowing assumes a stored status.
- SlotStore.InsertMany: does not validate the required `endTime`.
- SlotCases.CreateManyByDay: does not require an end time, as the corrected schema does not.
- SlotCases.CreateForDays: writes slots without an end time, which the schema as declared refuses.
- SlotCases.CreateForDaysSucceeds: holds for the corrected schema only.
- SlotCases.WholeWeek: holds for the corrected schema only.
- SlotCases.CreateForAllDays: models the corrected schema; as written every non-empty call fails validation.
- CreateAppointment.BookReleased: stores the status, as the corrected schema does.
- Lifecycle.CancelledSlotStaysTaken: assumes the status is stored; as written no slot is ever refused at all.
- Video.FindByStartTimeRange: compares start times as instants. The source compares the stored `yyyy-MM-dd'T'HH:mm:ssXXX` text with `toISOString()` text, which agrees with time order only when the server runs at offset zero.
- Video.GetUpcomingSections: inherits the comparison of `FindByStartTimeRange` above. It also reads each session's appointment id, which only a schema storing `appointmentId` keeps; as written, a non-empty window throws (see Findings).
- Video.GetSectionsByLawyerId: models the corrected bound, an instant; as written the bound is text (see Findings).
- The video-session schema declares neither `appointmentId` nor `roomId` (see Findings). The members below model a schema that stores both. The as-written behaviour is modelled by the `AsWritten` members of Booking, UpdateAppointment, Video and Lifecycle. Their parameter `q` is Mongoose's `strictQuery`, which the repositories leave unpinned: it decides whether a filter on an undeclared path matches every document or none.
- Booking.FindSectionByRoomId: matches the room, which only a schema storing `roomId` can do.
- Booking.SetSectionStatusByAppointment: updates the appointment's own session, which only a schema storing `appointmentId` can do.
- Video.FilterByConfirmed: reads each session's appointment id, which only a schema storing `appointmentId` keeps.
- Lifecycle.BookingRecords: the session it finds by the new appointment's id exists only under a schema storing `appointmentId`.
- Lifecycle.ClientCancelRefunds: its requires (a session carrying the appointment id) and its cancelled-session promise hold only under a schema storing `appointmentId`; as written the session stays pending (BookedSessionKeptAsWritten).
- Lifecycle.CancelRefundsBooking: the refund and the notices hold as written. The cancelled session holds only under a schema storing `appointmentId`.
- UpdateAppointment.HandleCancellation: cancels the appointment's own session only under a schema storing `appointmentId`; HandleCancellationAsWritten is the as-written half.
- UpdateAppointment.UpdateStatus: cancels through HandleCancellation, so its session update holds only under a schema storing `appointmentId`.
- UpdateAppointment.UpdateStatusAndNote: cancels through HandleCancellation, so its session update holds only under a schema storing `appointmentId`.
- UpdateAppointment.UpdateCompleteSection: finds the room and completes the room's appointment only under a schema storing both ids; UpdateCompleteSectionAsWritten is the as-written half. As written, the update by the absent id follows Mongoose's documented reading of a filter `{ _id: undefined }` as `{}`.
- ClientStore.Create: stores the account fields and the gender. The address, occupation and birth date that the registration data may also carry are not modelled, because no operation of this model reads them.
- CreateAppointment.ExecWith: which slot times date-fns reads is the parameter `sessionStart`. The start-time check accepts hours 00 and 13 to 23, which `hh:mm a` does not read. The session it stores carries the appointment id and the room id, which the declared session schema drops.
- Text.IsSpace: recognises ASCII whitespace only. JavaScript's `trim` also strips the Unicode space characters and line terminators.
- Numbers.ToNumber: reads decimal integers only. JavaScript's `+s` also reads hexadecimal, octal and binary prefixes, fractions, exponents and `Infinity`, which the model reads as NaN.
- The `Days` enumeration is not part of this model. Its order is taken from the use cases: Sunday first, matching `getUTCDay()`.
- `findDetailsById` and `findManyAsExtendedByClientId` are not modelled. Their joins return the appointment found by id.
- `getSlotsStatistics` is not modelled separately. It passes `getSlotUsageCount` through unchanged, and `getUsersStatistics` uses the repositories' range counts.
- The grouping query of `findClientGenders` is a parameter. The model takes its rows, one row per gender.
- `UnauthenticatedUseCases` is a lookup parameter of the controllers, and its own code is not modelled.
- Notifications are modelled only as the records the use cases create. Their repository and socket events are left out.
- SlotCases.DeleteForDays: states that the loop stops at the first failure and composes with the cascade. It does not state which slots of other lawyers survive.
- SlotCases.GetSlotsByDate: requires the slots to be well timed, because the source's sort is not defined on malformed times. The sort is not claimed to be stable.
- Controllers.GetLawyersAdmin: requires a clamped limit of at least 1. A limit of 0 divides by zero in the source.
- Controllers.GetClients: requires a non-negative offset and a limit of at least 1. The source passes negative values to MongoDB.
- Deleting slots does not refund the payments of the appointments it deletes. The source does not refund them either.

## Findings

| source | as written | input that shows it | evidently intended | confidence | as-written member | corrected member |
|---|---|---|---|---|---|---|
| src/use_case/admin/AdminClientUseCase.ts:24 | The stored block flag is `!isBlocked`, and the controller sets `isBlocked` from a path ending in "/block" | PUT `/client/<id>/block` | The block route blocks the client | high, not executed | Controllers.BlockRequestUnblocks | Controllers.BlockRequestBlocks |
| src/infrastructure/repositories/LawyerRepository.ts:109-128 | `update` never writes `isVerified` or `isBlocked` | `verifyLawyer(id)` for an unverified lawyer | The lawyer becomes verified | high, not executed | LawyerStore.FlagUpdatesLost | LawyerStore.FlagUpdatesKept |
| src/use_case/admin/DashboardUseCase.ts:24-41 | The figures compare against "male" and "female", but the schema stores "Male" and "Female" | A client with gender "Male" | That client is counted as male | high, not executed | Dashboard.GenderFiguresAlwaysZero | Dashboard.GenderFiguresRead |
| src/presentation/controllers/admin/AdminLawyerController.ts:30 | The controller reads `req.params.id`, but the route declares `:lawyerId` | PUT `/lawyer/<id>/verify` | The lawyer is verified | high, not executed | Controllers.LawyerRoutesRefusedAsWritten | Controllers.LawyerRoutesReachUseCase |
| src/infrastructure/repositories/LawyerRepository.ts:154-167 | `mapToILawyer` drops the password, so the password check compares against nothing | A lawyer logging in with the correct password | The lawyer is sent a login code | medium, not executed | LawyerAuth.PasswordLoginRefusedAsWritten | LawyerAuth.PasswordLoginAccepted |
| src/infrastructure/repositories/AppointmentRepository.ts:191-193 | Once the slot status is stored (next row), the slot search still counts cancelled appointments | Book a slot, cancel, then book the same slot on the same date | The slot can be booked again | medium, not executed | Lifecycle.CancelledSlotStaysTaken | Lifecycle.CancelledSlotReleased |
| src/infrastructure/model/SlotModel.ts:4-16 | The schema declares no `status`, so the lock `update` writes is dropped and `slot.status === "booked"` never holds | Two clients book the same slot for the same date | The second booking is refused as already booked | high, not executed | Lifecycle.DoubleBookedAsWritten | Lifecycle.SecondBookingRefused |
| src/use_case/slot/CreateSlotUseCase.ts:47-56 | `createForAllDays` builds slots with a start time only, but the schema requires `endTime` | `createForAllDays(lawyerId, ["10:00 AM"])` | Every day gets a slot at 10:00 AM | high, not executed | SlotCases.CreateForAllDaysAsWritten | SlotCases.WholeWeek |
| src/use_case/video/GetVideoSectionUseCase.ts:22-25 | The current `Date` is the lower bound on the string path `startTime`, which casts it to text beginning with the weekday's name, above every stored start time | A lawyer with a pending session tomorrow | The session is listed | high, not executed | Video.GetSectionsByLawyerIdAsWritten | Video.GetSectionsByLawyerId |
| src/infrastructure/model/VideoSectionModel.ts:4-29 | The session schema declares no `appointmentId`, so the create drops it, and `section.appointmentId!.toString()` (GetVideoSectionUseCase.ts:41, 63) throws for any session in the window | A client with a confirmed session tomorrow asks for the upcoming sessions | The session is listed | high, not executed | Video.UpcomingLostAsWritten | Video.GetUpcomingSections |
| src/infrastructure/repositories/VideoSectionRepository.ts:28-30 | `findOneAndUpdate({ appointmentId })` filters on a path no session stores, so it updates the collection's first session or none | A client cancels an appointment whose session is not stored first | That appointment's session is cancelled | high, not executed | UpdateAppointment.CancellationMissesOwnSessionAsWritten | UpdateAppointment.HandleCancellation |
| src/use_case/appointment/UpdateAppointmentUseCase.ts:81-91 | `findByRoomId` filters on a path no session stores, and `room.appointmentId` is absent, so the update by `undefined` completes the collection's first appointment | Completing the room of a session that is not stored first | That session and its appointment are completed | medium, not executed | UpdateAppointment.RoomNotCompletedAsWritten | UpdateAppointment.UpdateCompleteSection |
| src/use_case/chat/CreateChatUseCase.ts:18-49 | `mapToILawyer` has no profile image, but the chat schema requires one | Any new chat | The chat is created | medium, not executed | Chat.CreateChatWithStore | Chat.CreateChatSucceeds |
| src/use_case/chatbot/ChatBotUseCase.ts:28-33 | At most 40 messages are fetched, then pruning runs only when more than 40 came back | A client with 41 messages | The oldest messages are pruned, and only that client's | medium, not executed | ChatBot.HistoryNeverPruned | ChatBot.GetMessagesRetained |
| src/infrastructure/repositories/LawyerRepository.ts:54-84 | `findMany` ignores its filter flags | The admin listing with the "blocked" filter | Only blocked lawyers are listed | high, not executed | AdminCases.BlockedFilterListsUnblocked | AdminCases.GetAllLawyers |
