# Event platform domain model

A Dafny model of the domain logic behind an event-management backend that exists twice: once as
a monolith and once split into an event service, a session service, a speaker service and a user
service. Both shapes manage four soft-deleted record kinds and three relations:

- the records are events, sessions, speakers and users;
- the relations are event enrolments, session–speaker links and session attendance.

Around these records the backend has:

- an authentication middleware and an admin gate;
- controllers that check permissions and required fields, and pick status codes;
- request-body schemas;
- error handlers that turn a thrown failure into an HTTP answer;
- a cross-service existence check, called over RPC.

The database is replaced by immutable maps:

- Every record table is a `Tables.Table<T>`, a map from id to a row that carries the value and a
  `deleted` flag.
- Enrolments and speaker links are sets of id pairs.
- Attendance is a map keyed by (user, session).

Every operation is a pure function from the current tables to new tables, or to a `Result` whose
error is the `Failures.Failure` the source throws. There are three kinds of failure:

- a schema's issues;
- an `AppError` with its status;
- any other error, such as the store's own refusals.

Controllers return a `Failures.Reply`: a JSON answer, an error answer, an empty 204, or
`Next(failure)`, which stands for `next(error)`. `ErrorHandlers.MonolithRespond` and
`ErrorHandlers.UserServiceRespond` give the answer a client of those two applications finally
receives.

Listings are computed by `Sorting.SortedSelection`. It is a selection-by-insertion loop that
returns every record satisfying a filter exactly once, sorted by a total preorder:

- date order ascending or descending;
- name order by the database's collation. It is a parameter, `collate`, required only to be a total
  preorder. Character-by-character order, as a binary collation compares text, is one proved instance.

Library calls the model cannot see are parameters:

- password hashing and comparison, as `Domain.Crypto`;
- token signing and verification;
- date parsing, as `toDate`;
- the schema library's email, url, uuid and date-time checks, as `SchemaChecks.Formats`.

Where the monolith and a microservice behave identically, one member models both; the table cites
one of them and the row says so. Where they differ, each has its own member, and a lemma relates
them. Examples of such differences are the messages, the speaker check, the error kinds and the
status of a validation error.

## Model

| member | source | states |
|---|---|---|
| Tables.Find | monolith/src/modules/sessions/service.ts:44-46 | The lookup shared by every `getXById`: some value iff the id is stored and not soft-deleted, and then exactly the stored value. |
| Tables.Update | monolith/src/modules/sessions/service.ts:84-100 | An update of a missing id fails with the store's "record to update not found" error. Otherwise only that record's value changes: its deleted flag, the key set and every other row are kept. |
| Tables.SoftDelete | monolith/src/modules/sessions/service.ts:102-109 | A delete only sets the flag: the row and its value stay, other rows are unchanged, and a missing id is the store's error. |
| Tables.DeleteHides | monolith/src/modules/sessions/service.ts:102-109 | After a soft delete the record's lookup is empty and every other lookup answers as before. |
| Tables.DeleteIsIdempotent | monolith/src/modules/events/service.ts:88-94 | Deleting a record twice leaves the same table as deleting it once. |
| Tables.UpdateKeepsLiveness | monolith/src/modules/events/service.ts:73-86 | An update never revives a deleted record nor hides a live one. |
| Sorting.CodePointCollation | monolith/src/modules/speakers/service.ts:64-66 | Character-by-character order, a proper prefix first, is a total preorder, so a binary collation is one admissible name order. |
| Sorting.SortedSelection | monolith/src/modules/events/service.ts:52-71 | The shape of every `findMany({ where, orderBy })`: each key satisfying the filter appears exactly once, nothing else appears, and the result is sorted by the given total preorder. |
| Domain.StoreDate | monolith/src/modules/sessions/service.ts:6-18 | A date text is stored iff it converts to a date; otherwise the store refuses it with its invalid-date error. |
| Domain.PatchDate | microservices/event-service/src/modules/events/service.ts:20-24 | An update converts the date only when one is supplied. An absent date means no change, and a supplied text that does not convert is the store's invalid-date error. |
| Domain.ParseRole | monolith/src/modules/users/validation.ts:6 | Only "USER" and "ADMIN" are roles, and a parsed role prints back as the text it was read from. |
| Domain.RoleRoundTrip | monolith/src/modules/users/validation.ts:6 | Every role reads back from its text form. |
| Domain.ParseKind | monolith/src/modules/sessions/validation.ts:5 | Only WORKSHOP, TALK, PANEL and NETWORKING are session types, and a parsed type prints back as its text. |
| Domain.KindRoundTrip | monolith/src/modules/sessions/validation.ts:5 | Every session type reads back from its text form. |
| Events.GetEventById | monolith/src/modules/events/service.ts:17-50 | Empty for a missing or deleted event. Otherwise it holds the event, exactly its non-deleted sessions, and its enrolled users. |
| Events.ListEvents | monolith/src/modules/events/service.ts:52-71 | Every non-deleted event exactly once, with no deleted or unknown one, in ascending date order. The event service's `listEvents` is the same. |
| Events.CreateEvent | monolith/src/modules/events/service.ts:6-15 | It fails iff the date text does not convert, with the invalid-date error. Otherwise the new id holds the live event built from the body, and every other record is unchanged. |
| Events.ApplyEventPatch | microservices/event-service/src/modules/events/service.ts:20-24 | Each supplied field replaces the stored one, and each absent field keeps its stored value. |
| Events.PatchIsIdempotent | microservices/event-service/src/modules/events/service.ts:20-24 | Applying the same update twice is applying it once. |
| Events.EmptyPatchIsIdentity | microservices/event-service/src/modules/events/service.ts:20-24 | An update that supplies nothing leaves the event as it was. |
| Events.UpdateEvent | monolith/src/modules/events/service.ts:73-86 | The checks run in order: the date is converted first, then a missing id fails, then only that event's supplied fields change. Its deleted flag and all other events stay. Both services share this behaviour. |
| Events.DeleteEvent | monolith/src/modules/events/service.ts:88-94 | A soft delete: the event stays stored, with the same value, but its lookup becomes empty. Other events and nothing else change. |
| Events.EnrollInEvent | monolith/src/modules/events/service.ts:96-128 | A plain error "Event not found" for a missing or deleted event comes before the duplicate check. A duplicate fails "Already enrolled in this event". Otherwise exactly the one pair is added. |
| Events.EnrollInEventService | microservices/event-service/src/modules/events/service.ts:30-36 | The same order of checks with the service's "Already enrolled" message, and one enrolment added on success. |
| Events.LeaveEvent | monolith/src/modules/events/service.ts:130-141 | Removes exactly the (user, event) enrolment. A missing one is the store's delete error. Both services share this behaviour. |
| Events.EnrollThenLeave | monolith/src/modules/events/service.ts:96-141 | A successful enrolment followed by leaving restores the original enrolments. |
| Events.EnrollTwiceFails | monolith/src/modules/events/service.ts:107-127 | A second enrolment of the same pair is refused, so a pair is enrolled at most once. |
| Events.DeletedEventRefusesEnrolment | monolith/src/modules/events/service.ts:96-104 | Once an event is deleted, every enrolment in it fails "Event not found" and its lookup is empty. |
| Sessions.GetSessionById | monolith/src/modules/sessions/service.ts:20-49 | Empty for a missing or deleted session, otherwise the stored session. The session service's lookup is the same. |
| Sessions.EventFilter | monolith/src/modules/sessions/service.ts:51-58 | The spread `eventId && { eventId }` filters on the given text iff it is present and non-empty. |
| Sessions.ListSessions | monolith/src/modules/sessions/service.ts:51-82 | Every non-deleted session of the requested event, or of all events when none is given, appears exactly once and in ascending date order. The session service's listing is the same. |
| Sessions.EmptyEventIdIsNoFilter | monolith/src/modules/sessions/service.ts:51-58 | A session of event `e` passes the filter iff no id or an empty id was given, or the id given is `e`; so an empty event id filters exactly like an absent one. |
| Sessions.CreateSession | monolith/src/modules/sessions/service.ts:6-18 | It fails iff the date does not convert. Otherwise the new id holds the live session built from every field of the body, with the converted date and `mandatory` defaulting to false, and other sessions are unchanged. |
| Sessions.ApplySessionPatch | microservices/session-service/src/modules/sessions/service.ts:36-47 | Supplied fields replace the stored ones and absent ones stay. |
| Sessions.UpdateSession | monolith/src/modules/sessions/service.ts:84-100 | A supplied date is converted first, then a missing id fails. Otherwise only that session's supplied fields change. |
| Sessions.DeleteSession | monolith/src/modules/sessions/service.ts:102-109 | A soft delete: the value stays, the lookup becomes empty, and other sessions are unchanged. |
| Sessions.AddSpeakerMonolith | monolith/src/modules/sessions/service.ts:111-150 | The checks run in order: "Session not found" for a missing or deleted session, then "Speaker not found", then "Speaker already added to this session" for a duplicate pair. On success exactly that one link is added. |
| Sessions.AddSpeakerSessionService | microservices/session-service/src/modules/sessions/service.ts:56-78 | "Session not found" for a missing or deleted session, with no speaker check. Then "Speaker already added" on a duplicate. Otherwise exactly one link is added. |
| Sessions.ServiceAcceptsMore | microservices/session-service/src/modules/sessions/service.ts:56-78 | What the monolith links, the session service links the same way. An unknown speaker is refused only by the monolith. |
| Sessions.RemoveSpeakerFromSession | monolith/src/modules/sessions/service.ts:152-162 | Removes exactly the (session, speaker) link. A missing link is the store's delete error. Both services share this behaviour. |
| Sessions.AddThenRemove | microservices/session-service/src/modules/sessions/service.ts:56-86 | Adding a speaker and then removing it restores the links. |
| Sessions.AttendSession | monolith/src/modules/sessions/service.ts:164-202 | An upsert on (user, session). An existing record only gets `attended = true` and keeps its event and time. Otherwise one record is created with attended true. No other record changes. The user service's `attendSession` is the same. |
| Sessions.AttendIsIdempotent | monolith/src/modules/sessions/service.ts:164-202 | Repeating the attendance, with any event id and at any time, changes nothing further. |
| Speakers.GetSpeakerById | monolith/src/modules/speakers/service.ts:14-35 | Empty for a missing or deleted speaker, otherwise the stored speaker. The speaker service's lookup is the same. |
| Speakers.ListSpeakers | monolith/src/modules/speakers/service.ts:37-70 | Every non-deleted speaker exactly once, ascending by name under the database's collation (any total preorder). The speaker service's listing is the same. |
| Speakers.CreateSpeaker | monolith/src/modules/speakers/service.ts:6-12 | The new id holds the live speaker built from the body, and other speakers are unchanged. |
| Speakers.ApplySpeakerPatch | microservices/speaker-service/src/modules/speakers/service.ts:27-32 | Supplied fields replace the stored ones and absent ones stay. |
| Speakers.UpdateSpeaker | monolith/src/modules/speakers/service.ts:72-79 | Only the supplied fields of that speaker change. A missing id is the store's update error. |
| Speakers.EmptyPatchIsIdentity | monolith/src/modules/speakers/service.ts:72-79 | An update that supplies nothing leaves the speaker unchanged. |
| Speakers.PatchIsIdempotent | monolith/src/modules/speakers/service.ts:72-79 | Applying the same update twice is applying it once. |
| Speakers.DeleteSpeaker | monolith/src/modules/speakers/service.ts:81-88 | A soft delete: the value stays, the lookup becomes empty, and other speakers are unchanged. |
| Speakers.DeleteHidesFromListing | microservices/speaker-service/src/modules/speakers/service.ts:20-39 | After a delete, that speaker is no longer live, so it drops out of the listing. Every other speaker stays live or not live as before. |
| Users.ByEmail | microservices/user-service/src/modules/auth/service.ts:12-14 | With unique emails, it gives the one stored user holding the email, deleted or not. It is empty iff nobody holds it. |
| Users.GetUserById | monolith/src/modules/users/service.ts:7-49 | As written: empty iff the id is unknown. A soft-deleted user is still returned, because the `select` leaves out `deleted` and the test on line 44 never fires. The answer is the user's id, name, email and role, with no password. The user service's lookup, at microservices/user-service/src/modules/users/service.ts:8-35, is the same. |
| Users.GetLiveUserById | monolith/src/modules/users/service.ts:44-46 | The lookup the `deleted` test intends: some user iff the id is stored and not deleted, and then the same public user as the lookup as written. |
| Users.DeletedUserStillReturned | monolith/src/modules/users/service.ts:7-49 | After `deleteUser`, the lookup as written still answers the deleted user, unchanged. |
| Users.DeleteHidesUser | monolith/src/modules/users/service.ts:88-94 | With the intended lookup, a deleted user is hidden and every other user's lookup answers as before. |
| Users.ListUsers | monolith/src/modules/users/service.ts:51-70 | Every non-deleted user exactly once, without passwords, ascending by name under the database's collation (any total preorder). The user service's listing is the same. |
| Users.ApplyUserPatch | monolith/src/modules/users/service.ts:72-86 | Supplied name, email and role replace the stored ones, and the password and the rest stay. |
| Users.UpdateUser | monolith/src/modules/users/service.ts:72-86 | A missing id fails first. Then an email held by another user is refused by the unique index. Otherwise only that user's supplied fields change. |
| Users.UpdateKeepsEmailsUnique | monolith/src/modules/users/service.ts:72-86 | An accepted update keeps every email unique. |
| Users.DeleteUser | monolith/src/modules/users/service.ts:88-94 | A soft delete: the user stays stored with the same value and is no longer live. Other users are unchanged, and a missing id is the store's error. The user service's delete is the same. |
| Users.ChangePasswordMonolith | monolith/src/modules/users/service.ts:96-122 | The checks run in order: "User not found" for a missing or deleted user, then "Current password is incorrect". On success only that user's password becomes the hash of the new one, with the fixed success message. |
| Users.ChangePasswordUserService | microservices/user-service/src/modules/users/service.ts:82-104 | The same checks as AppErrors: 404, then 400. On success only the password field changes. |
| Users.ChangePasswordServicesAgree | microservices/user-service/src/modules/users/service.ts:82-104 | The two services accept and refuse the same changes, with the same outcome on success. |
| Users.NewPasswordMatchesAfterChange | monolith/src/modules/users/service.ts:113-121 | With a sound hash, after a change the new password matches the stored one, and every other user is untouched. |
| Users.GetUserEvents | monolith/src/modules/users/service.ts:124-149 | Exactly the events the user is enrolled in, each once, deleted or not, latest date first. |
| Users.UserSessionsMonolith | monolith/src/modules/users/service.ts:151-183 | Exactly the attendance records of that user, restricted to the event when a non-empty event id is given, ordered by session date with the latest first. |
| Users.UserSessionsUserService | microservices/user-service/src/modules/users/service.ts:106-118 | Exactly that user's attendance records, with the same optional event filter, newest record first. |
| AuthService.Payload | microservices/user-service/src/modules/auth/service.ts:70-76 | The token payload is exactly the user's id, email and role. |
| AuthService.Register | microservices/user-service/src/modules/auth/service.ts:11-49 | An email already held, even by a deleted user, is a 400 and stores nothing. Otherwise one USER is stored with the hash of the password. The answer is that user without a password, with tokens signed over its payload. |
| AuthService.RegisterKeepsEmailsUnique | microservices/user-service/src/modules/auth/service.ts:11-49 | A registration keeps every email unique. |
| AuthService.Login | microservices/user-service/src/modules/auth/service.ts:51-84 | The checks run in order: 401 "Invalid email or password" for an unknown email, then 403 for a deleted account, then the same 401 for a wrong password. Otherwise it answers the user without password, with tokens over its payload. |
| AuthService.UnknownEmailLooksLikeWrongPassword | microservices/user-service/src/modules/auth/service.ts:56-68 | An unknown email and a wrong password get the identical answer. |
| AuthService.RegisterThenLogin | microservices/user-service/src/modules/auth/service.ts:11-84 | With a sound hash, right after registering, the same credentials log in as the new user. |
| AuthService.ChangePasswordThenLogin | microservices/user-service/src/modules/users/service.ts:82-104 | With a sound hash, after a password change the new password logs in. |
| AuthService.DeletedAccountCannotLogin | microservices/user-service/src/modules/auth/service.ts:60-62 | A deleted account answers 403 to every password. |
| AuthService.GetMe | microservices/user-service/src/modules/auth/service.ts:86-110 | 404 for an absent user, then 403 for a deleted one. Otherwise the same public user as the intended lookup `Users.GetLiveUserById`, with no password or deleted flag. |
| ExistenceRpc.ValidateSession | microservices/session-service/src/grpc/server.ts:14-21 | A thrown lookup is passed on as the error, with no reply. Otherwise `exists` holds iff the lookup finds a live session, with "Session exists" or "Session not found". No table is changed. |
| ExistenceRpc.ValidateSpeaker | microservices/speaker-service/src/grpc/server.ts:14-21 | The same with "Speaker already exists." or "Speaker not found!". |
| ExistenceRpc.DeletedSessionDoesNotExist | microservices/session-service/src/grpc/server.ts:16-17 | A soft-deleted or unknown session is answered `exists = false`, not an error. |
| ExistenceRpc.DeletedSpeakerDoesNotExist | microservices/speaker-service/src/grpc/server.ts:16-17 | A soft-deleted speaker is answered `exists = false`, not an error. |
| ExistenceRpc.ExistsAgreesWithMonolithCheck | microservices/session-service/src/grpc/server.ts:14-21 | The monolith links a speaker exactly when both remote existence checks say `exists` and the pair is new. |
| AuthMiddleware.BearerToken | microservices/session-service/src/shared/middleware/authMiddleware.ts:19-24 | A token exists iff the header is present and starts with "Bearer ". It is the header without those 7 characters. |
| AuthMiddleware.BearerRoundTrip | microservices/session-service/src/shared/middleware/authMiddleware.ts:19-24 | "Bearer " followed by any token reads back that token. |
| AuthMiddleware.PrefixIsExact | microservices/user-service/src/shared/middleware/authMiddleware.ts:17-22 | For every header: it carries a token iff it is "Bearer " followed by some text. Every lower-case "bearer " header, a bare "Bearer" and a missing header carry none. |
| AuthMiddleware.SessionServiceAuth | microservices/session-service/src/shared/middleware/authMiddleware.ts:15-38 | 401 "No token provided!" without a bearer header. Then 401 "Invalid or expired token!" when verification fails. Otherwise it proceeds with exactly the verified user. |
| AuthMiddleware.UserServiceAuth | microservices/user-service/src/shared/middleware/authMiddleware.ts:13-36 | The same header check. Then a null decode is 401 "Invalid or expired token!", and a throwing decode is 401 "Authentication failed!". Otherwise it proceeds with the decoded user. |
| AuthMiddleware.AuthGatesAgree | microservices/user-service/src/shared/middleware/authMiddleware.ts:13-36 | When verification and decoding agree, both services pass the same requests with the same user, and every refusal is a 401. |
| AuthMiddleware.Admin | microservices/session-service/src/shared/middleware/authMiddleware.ts:40-56 | 401 without a user, 403 for a non-ADMIN, otherwise it proceeds with the same user. The user service's gate is the same. |
| AuthMiddleware.AdminBehindAuth | microservices/session-service/src/shared/middleware/authMiddleware.ts:45-55 | Behind authentication, the admin gate passes exactly the verified tokens whose role is ADMIN. |
| ErrorHandlers.JoinPath | monolith/src/shared/middleware/errorHandler.ts:31 | An issue path of one segment is that segment, and an empty path is empty. |
| ErrorHandlers.JoinPathAppend | monolith/src/shared/middleware/errorHandler.ts:31 | Adding one segment to a non-empty path adds "." and that segment to the joined text. |
| ErrorHandlers.Details | monolith/src/shared/middleware/errorHandler.ts:30-33 | One detail per issue, in order, each with the dot-joined path and the issue's message. |
| Failures.AppError | monolith/src/shared/middleware/errorHandler.ts:5-16 | An AppError keeps its message, is operational, and has the given status or 500 by default. |
| ErrorHandlers.MonolithHandle | monolith/src/shared/middleware/errorHandler.ts:18-54 | The checks run in order. A validation error is 400 "Validation failed" with its details, checked first. An operational AppError gets its own status and message. Anything else is 500, with "Internal server error" in production and the error's message otherwise. |
| ErrorHandlers.UserServiceHandle | microservices/user-service/src/shared/middleware/errorHandler.ts:11-20 | An AppError gets its status and message, and anything else is 500 "Internal server error!". |
| ErrorHandlers.MonolithRespond | monolith/src/shared/middleware/errorHandler.ts:18-54 | A direct answer is sent as is, and `next(error)` goes through the handler. The client always gets a status. |
| ErrorHandlers.UserServiceRespond | microservices/user-service/src/shared/middleware/errorHandler.ts:11-20 | The same for the user service. |
| ErrorHandlers.AppErrorRoundTrip | microservices/user-service/src/shared/middleware/errorHandler.ts:4-20 | An AppError built with a status reaches the client with that status and message from either handler, and with 500 when built without one. |
| ErrorHandlers.ValidationStatusDiffers | microservices/user-service/src/shared/middleware/errorHandler.ts:11-20 | A schema failure is a 400 in the monolith but a 500 in the user service, whose handler has no validation branch. |
| UserServiceUsers.GetUser | microservices/user-service/src/modules/users/controller.ts:15-28 | 404 "User not found" iff the id is unknown. Otherwise 200 with that user, even when it is soft-deleted, because the lookup as written does not hide it. |
| UserServiceUsers.UpdateUser | microservices/user-service/src/modules/users/controller.ts:30-51 | The checks run in order: parse first, then 403 unless the requester is the user or an ADMIN, then 403 when a non-ADMIN supplies a role, then the update. Nothing is stored unless the answer is 200. |
| UserServiceUsers.InvalidBodyFailsForAnyone | microservices/user-service/src/modules/users/controller.ts:32-35 | A body the schema refuses fails for every requester, as the handler's 500. |
| UserServiceUsers.SelfCannotChangeRole | microservices/user-service/src/modules/users/controller.ts:41-44 | A non-ADMIN supplying a role gets 403 even on their own profile, and nothing changes. |
| UserServiceUsers.ChangeUserPassword | microservices/user-service/src/modules/users/controller.ts:63-76 | 401 "Not authenticated" without a requester. Otherwise it changes the requester's own password and answers 200 with the success message. |
| UserServiceUsers.WrongPasswordIs400 | microservices/user-service/src/modules/users/service.ts:91-94 | A wrong current password reaches the client as 400 "Current password is incorrect". |
| UserServiceUsers.UserSessions | microservices/user-service/src/modules/users/controller.ts:78-92 | 403 unless the requester is the user or an ADMIN. Otherwise 200 with that user's records (of the event, when a non-empty id is given), each once with its stored value, newest `createdAt` first. |
| UserServiceUsers.AttendSession | microservices/user-service/src/modules/users/controller.ts:94-118 | The checks run in order: 401 without a requester, then 400 when `sessionId` or `eventId` is missing or empty. Otherwise 201 with the requester's attendance upserted. |
| MonolithUsers.GetUser | monolith/src/modules/users/controller.ts:7-20 | AppError "User not found!" with status 404 is thrown iff the id is unknown. Otherwise it answers 200 with the user, even when it is soft-deleted. |
| MonolithUsers.UpdateUser | monolith/src/modules/users/controller.ts:31-52 | Parse first, then the two 403 permission rules as AppErrors, then the update. Nothing is stored unless the answer is 200. |
| MonolithUsers.UpdateUserControllersAgree | monolith/src/modules/users/controller.ts:31-52 | The monolith and the user service accept the same updates from the same requester, with the same stored result. |
| MonolithUsers.InvalidBodyIs400 | monolith/src/modules/users/controller.ts:34-38 | In the monolith a refused body reaches any requester as 400 "Validation failed" with one detail per issue. |
| MonolithUsers.DeleteUser | monolith/src/modules/users/controller.ts:54-62 | A soft delete answered 204 with no body. Afterwards `getUser` answers that user exactly as before the delete. A missing id is passed to the handler. |
| MonolithUsers.GetUserEvents | monolith/src/modules/users/controller.ts:75-90 | AppError 403 unless the requester is the user or an ADMIN. Otherwise 200 with exactly the events the user is enrolled in, each once with its stored value, latest date first. |
| MonolithUsers.GetUserSessions | monolith/src/modules/users/controller.ts:92-108 | AppError 403 unless the requester is the user or an ADMIN. Otherwise 200 with that user's attendance records (of the event, when given), each once with its stored value, latest session date first. |
| MonolithSessionControllers.CreateSession | monolith/src/modules/sessions/controller.ts:7-15 | A valid body is stored and answered 201. A refused body or date stores nothing. |
| MonolithSessionControllers.GetSession | monolith/src/modules/sessions/controller.ts:17-30 | An empty lookup throws AppError "Session not found" with status 404. Otherwise it answers 200. |
| MonolithSessionControllers.UpdateSession | monolith/src/modules/sessions/controller.ts:42-51 | Parse with the update schema, update, answer 200. Nothing is stored on a failure. |
| MonolithSessionControllers.DeleteSession | monolith/src/modules/sessions/controller.ts:53-61 | A soft delete answered 204. |
| MonolithSessionControllers.AddSpeaker | monolith/src/modules/sessions/controller.ts:63-71 | Both ids come from the path, and the new link is answered 201. |
| MonolithSessionControllers.RemoveSpeaker | monolith/src/modules/sessions/controller.ts:73-81 | The link is removed and the answer is 204. |
| MonolithSessionControllers.AttendSession | monolith/src/modules/sessions/controller.ts:83-98 | A missing or empty `eventId` throws AppError "eventId is required" with status 400, and nothing is recorded. Otherwise the path id is the session, the requester is the user, and the answer is 201. |
| SessionServiceControllers.Create | microservices/session-service/src/modules/sessions/controller.ts:5-14 | A schema failure goes to `next` with nothing stored. A valid body with a convertible date is answered 201 with the stored row, and the table is exactly `Sessions.CreateSession`'s result. |
| SessionServiceControllers.GetSessions | microservices/session-service/src/modules/sessions/controller.ts:16-29 | 404 "No sessions found!" iff no live session passes the event filter. Otherwise 200 with every such session once, with its stored value, in ascending date order. |
| SessionServiceControllers.GetSession | microservices/session-service/src/modules/sessions/controller.ts:31-43 | 404 "Session not found!" iff the lookup is empty. |
| SessionServiceControllers.Update | microservices/session-service/src/modules/sessions/controller.ts:45-54 | Parse with the partial schema, then update. On success the answer is 200 with the stored row, and the table is exactly `Sessions.UpdateSession`'s result. Nothing is stored on failure. |
| SessionServiceControllers.Delete | microservices/session-service/src/modules/sessions/controller.ts:56-64 | 204 iff the id is stored, and the table is then `Sessions.DeleteSession`'s result: the session keeps its value but is no longer live, and every other row is kept. A missing id is the store's update error. |
| SessionServiceControllers.AddSpeaker | microservices/session-service/src/modules/sessions/controller.ts:65-74 | The speaker id comes from the body, and the new link is answered 201. |
| SessionServiceControllers.RemoveSpeaker | microservices/session-service/src/modules/sessions/controller.ts:75-83 | The link is removed and the answer is 204. |
| EventServiceControllers.Create | microservices/event-service/src/modules/events/controller.ts:6-14 | A schema failure goes to `next` with nothing stored. A valid body with a convertible date is answered 201 with the stored row, and the table is exactly `Events.CreateEvent`'s result. |
| EventServiceControllers.GetEvent | microservices/event-service/src/modules/events/controller.ts:25-36 | 404 "Event not found" iff the lookup is empty. |
| EventServiceControllers.Update | microservices/event-service/src/modules/events/controller.ts:38-46 | Parse with the partial schema, then update. On success the answer is 200 with the stored row, and the table is exactly `Events.UpdateEvent`'s result. Nothing is stored on failure. |
| EventServiceControllers.Delete | microservices/event-service/src/modules/events/controller.ts:48-55 | 204 iff the id is stored, and the table is then `Events.DeleteEvent`'s result: the event keeps its value but is no longer live, and every other row is kept. A missing id is the store's update error. |
| EventServiceControllers.Enroll | microservices/event-service/src/modules/events/controller.ts:57-68 | 401 "Not authenticated" without a requester, and the enrolments are unchanged. Otherwise the requester's own enrolment is made and answered 201. |
| EventServiceControllers.Leave | microservices/event-service/src/modules/events/controller.ts:70-81 | 401 without a requester. Otherwise the requester's enrolment is removed and the answer is 204. |
| EventServiceControllers.EnrollThenLeave | microservices/event-service/src/modules/events/controller.ts:57-81 | Enrolling and then leaving as the same requester restores the enrolments. |
| SchemaChecks.Flag | monolith/src/modules/users/validation.ts:4 | A field check reports nothing iff it holds, and otherwise exactly one issue on that field. |
| TimeFormat.ReadClock | monolith/src/modules/sessions/validation.ts:9 | Every string matching the time pattern is some clock reading h:m, with h below 24 and m below 60. The hour has one digit only when it is below 10. |
| TimeFormat.ClockMatches | monolith/src/modules/sessions/validation.ts:9 | Every such clock reading matches the pattern. |
| TimeFormat.PatternIsClockReading | monolith/src/modules/sessions/validation.ts:9 | The pattern accepts exactly the readings 0:00 to 23:59, with a one- or two-digit hour. |
| TimeFormat.PatternExamples | monolith/src/modules/sessions/validation.ts:9 | "9:05" and "23:59" are accepted, while "24:00", "9:5" and "12:60" are not. |
| UserSchemas.ParseUpdateUser | monolith/src/modules/users/validation.ts:3-7 | A body is accepted iff every supplied field obeys its rule. It passes the fields through, and a short name is reported. |
| UserSchemas.EmptyUpdateAccepted | monolith/src/modules/users/validation.ts:3-7 | A body parses to the update that changes nothing iff it supplies no field, and the empty body is accepted. |
| UserSchemas.PasswordIssuesMatchPolicy | monolith/src/modules/users/validation.ts:11-15 | A new password gets no issue iff it meets the policy. Every issue is on `newPassword`, one per broken rule. |
| UserSchemas.ParseChangePassword | monolith/src/modules/users/validation.ts:9-16 | Accepted iff the current password is non-empty and the new one has at least 8 characters with an upper-case letter, a lower-case letter and a digit. Each broken rule is reported. |
| UserSchemas.PasswordPolicyExamples | monolith/src/modules/users/validation.ts:11-15 | "Password1" meets the policy, while "password1" and "Pass1" do not. |
| SessionSchemas.ParseCreateSession | monolith/src/modules/sessions/validation.ts:3-12 | Accepted iff every creation rule holds: name of 3 or more characters, a known type, local of 2 or more, a datetime date, a positive integer duration, the time pattern and a uuid event id. On success every field is passed through, the type prints back as the body's text, and `mandatory` defaults to false. |
| SessionSchemas.ParseUpdateSession | monolith/src/modules/sessions/validation.ts:14-22 | Accepted iff every supplied field obeys its creation rule. On success every supplied field is passed through, the type prints back as the body's text, and the result never carries an `eventId`. |
| SessionSchemas.CreateImpliesUpdate | monolith/src/modules/sessions/validation.ts:3-22 | A body the creation schema accepts is also a valid update. |
| SessionServiceSchemas.ParseCreate | microservices/session-service/src/modules/sessions/validation.ts:3-12 | Accepted iff name and local are non-empty, the type is known and the duration is at least 1. Date and time may be any text. On success every field is passed through, the type prints back as the body's text, and `mandatory` stays absent when not given. |
| SessionServiceSchemas.ParseUpdate | microservices/session-service/src/modules/sessions/validation.ts:14 | The partial schema: each supplied field obeys its creation rule. On success every field, including an `eventId`, is passed through, and the type prints back as the body's text. |
| SessionServiceSchemas.PartialAgreesOnCompleteBodies | microservices/session-service/src/modules/sessions/validation.ts:14 | On a body with every required field, the partial schema accepts exactly what the creation schema does. |
| SessionServiceSchemas.FractionalDuration | microservices/session-service/src/modules/sessions/validation.ts:7 | A duration of 1.5 passes the session service but not the monolith, which demands an integer. |
| EventSchemas.ParseCreateEvent | microservices/event-service/src/modules/events/validation.ts:3-9 | Accepted iff name, organization and description are non-empty. The date is any text, the logo is optional, and the fields pass through. |
| EventSchemas.ParseUpdateEvent | microservices/event-service/src/modules/events/validation.ts:11-17 | Every field is optional, and a supplied text field must be non-empty. The fields pass through. |
| EventSchemas.CreateImpliesUpdate | microservices/event-service/src/modules/events/validation.ts:3-17 | A body the creation schema accepts is a valid update that supplies every field it carries. |
| EventSchemas.UpdateRefusesOnlyEmptyTexts | microservices/event-service/src/modules/events/validation.ts:11-17 | An update is refused iff a supplied name, organization or description is empty, and an empty name is reported on `name`. |
| SpeakerSchemas.ParseCreateSpeaker | monolith/src/modules/speakers/validation.ts:3-7 | Accepted iff the name has 3 or more characters, the description has 10 or more, and any avatar is a URL. |
| SpeakerSchemas.ParseUpdateSpeaker | monolith/src/modules/speakers/validation.ts:9-13 | Every field is optional, and a supplied field obeys the same bound. |
| SpeakerSchemas.ShortDescriptionRefused | monolith/src/modules/speakers/validation.ts:3-13 | A description under 10 characters is refused by an update exactly as by a creation. |
| SpeakerServiceSchemas.ParseCreate | microservices/speaker-service/src/modules/speakers/validation.ts:3-7 | Accepted iff name and description are non-empty. Any avatar text is allowed. |
| SpeakerServiceSchemas.ParseUpdate | microservices/speaker-service/src/modules/speakers/validation.ts:9 | The partial form: supplied fields obey the creation rules. |
| SpeakerServiceSchemas.PartialAgreesOnCompleteBodies | microservices/speaker-service/src/modules/speakers/validation.ts:9 | On a complete body the partial schema accepts exactly what the creation schema does. |

## Left out

- Broker messaging (publishers, consumers, connection retry) and the gRPC transport (proto loading, ports, credentials): network I/O. Only the existence handlers' lookup-to-reply mapping is modelled.
- The persistence library: it is replaced by maps. Its foreign-key refusals are not modelled. For example, attending a session id that was never stored still records the attendance. Its `include`/`select` relation projections are also left out, except that a password never leaves the user service and `getEventById` keeps only live sessions.
- Events.GetEventById: the event service's `getEventById` includes the event's sessions without a deleted filter. Only the shared rule, empty for a missing or deleted event, is stated for it.
- Users.UpdateUser: the unique-index refusal carries an abbreviated form of the store's message. The full text depends on the library version.
- Users.ByEmail: it requires that stored emails are unique, which the database's unique index guarantees.
- Users.GetUserEvents: it requires every enrolment to name a stored event, which the foreign key guarantees. So does `Users.UserSessionsMonolith` for attendance and sessions.
- Events.CreateEvent: it requires a fresh id. The same goes for Sessions.CreateSession, Speakers.CreateSpeaker, AuthService.Register, MonolithSessionControllers.CreateSession, SessionServiceControllers.Create and EventServiceControllers.Create, since ids are generated by the database.
- AuthService.Register: the stored user gets role USER and `deleted = false`, although the `create` call sets neither. Both are taken to be column defaults of the database schema, which is not part of this model.
- The store's refusals (`Tables.UpdateMissing`, `Tables.DeleteMissing`, `Tables.InvalidDate`) are represented by fixed texts. The library's real message also carries the text of the failed call, and its wording depends on the library version. It reaches a client only through the monolith handler's non-production branch.
- Password hashing: bcrypt's random salt is not modelled. `Domain.Crypto` is a fixed hash and a comparison, and the login and change-password round trips assume only that the comparison accepts a password against its own hash (`Domain.Sound`).
- Token signing and verification, date parsing and the schema library's email, url, uuid and date-time checks are parameters. The monolith's `jwt.ts` helpers are not part of this model.
- Timestamps: `createdAt` of an attendance is a parameter `now`, not a clock reading.
- String lengths: they count Dafny characters (Unicode code points) where the source counts UTF-16 code units. The two agree on text without surrogate pairs.
- Speakers.ListSpeakers, Users.ListUsers: the database's collation is not fixed by the code, so it is the parameter `collate`. The contract promises only that names are ascending under that collation, whichever total preorder it is.
- Sessions.CreateSession: an absent `mandatory` is stored as false. For the session service, whose schema has no default, this takes the column default to be false. The database schema that would fix it is not part of this model. SessionServiceControllers.Create inherits this.
- UserServiceUsers.UpdateUser: the user service's `updateUserSchema` is taken to be the monolith's, `UserSchemas.ParseUpdateUser`. The user service's own validation file is not part of this model.
- UserServiceUsers.InvalidBodyFailsForAnyone: the bodies it speaks of are those the monolith's update schema refuses, on the same assumption.
- UserServiceUsers.ChangeUserPassword: the user service's `changePasswordSchema` is taken to be the monolith's, `UserSchemas.ParseChangePassword`. Its own validation file is not part of this model.
- UserServiceUsers.WrongPasswordIs400: the body it speaks of is one the monolith's password schema accepts, on the same assumption.
- The schema library's default messages for enum, type and format failures are represented by fixed constants. Every issue's path and the accept/refuse decision are exact.
- AppError's `name` field is not modelled. It is never part of an answer.
- The session service's and event service's error handlers are not part of this model, so their controllers' thrown errors stay `next(error)`.
- The monolith's controllers are modelled with the requester present. They sit behind the authentication middleware and use `req.user!`.
- SessionServiceControllers.AddSpeaker: the body's `speakerId` is modelled as a given id. An absent field, which the source would pass on as `undefined`, is not modelled.
- Auth controllers, speaker controllers, the monolith events controller, routes, `app.ts`, `server.ts` and the logger are left out: they only forward results or wire the application.

## Findings

Both users services look up a user with a `select` that leaves out the `deleted` column. The
following `(user as any).deleted` test therefore reads a field that is never there, so a
soft-deleted user is still returned. Every other lookup, and `getMe` (which selects `deleted`),
does refuse deleted records. `Users.GetUserById` and the two `getUser` controllers model the code
as written, because that is what a client receives. `Users.GetLiveUserById` is the intended
lookup, and `AuthService.GetMe` agrees with it.

| source | as written | input that shows it | evidently intended | confidence | as-written member | corrected member |
|---|---|---|---|---|---|---|
| monolith/src/modules/users/service.ts:8-46 | `select` omits `deleted`, so the deleted test never fires | a user whose row has `deleted = true`: `getUserById` returns it and `GET /users/:id` answers 200 | return null for a soft-deleted user, as the other lookups do | high, not executed | Users.DeletedUserStillReturned | Users.DeleteHidesUser |
| microservices/user-service/src/modules/users/service.ts:9-32 | the same `select` without `deleted` | the same input | the same | high, not executed | Users.GetUserById | Users.GetLiveUserById |
