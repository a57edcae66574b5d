/**
 * The users controller of the user service
 * (microservices/user-service/src/modules/users/controller.ts): its permission and
 * required-field gates, answered directly, with everything thrown handed to the error handler.
 */
module UserServiceUsers {
  import opened Wrappers
  import opened Failures
  import opened Tables
  import opened Domain
  import opened SchemaChecks
  import opened UserSchemas
  import opened ErrorHandlers
  import Users
  import Sessions

  const UserNotFound := "User not found"
  const OwnProfileOnly := "You can only update your own profile"
  const RolesAdminOnly := "Only admins can change user roles"
  const NotAuthenticated := "Not authenticated"
  const OwnSessionsOnly := "You can only view your own sessions"
  const AttendFieldsRequired := "sessionId and eventId are required"

  /**
   * `getUser`: 404 "User not found" when the lookup is empty, otherwise the user. The lookup, as
   * written, is empty only for an unknown id, so a soft-deleted user is answered with 200.
   */
  function GetUser(users: Table<User>, id: Id): (r: Reply<PublicUser>)
    ensures r == ErrorJson(404, UserNotFound, []) <==> id !in users
    ensures r.Json? <==> id in users
    ensures r.Json? ==> r == Json(200, Public(id, users[id].value))
  {
    match Users.GetUserById(users, id)
    case None => ErrorJson(404, UserNotFound, [])
    case Some(u) => Json(200, u)
  }

  /** The two permission rules of `updateUser`: self or ADMIN, and a role only from an ADMIN. */
  predicate MayUpdate(requester: Option<AuthUser>, id: Id, p: UserPatch) {
    SelfOrAdmin(requester, id) && (p.role.Some? ==> IsAdmin(requester.value))
  }

  /**
   * `updateUser`: the body is parsed first, so a bad body fails for anyone; then 403 unless the
   * requester is the user or an ADMIN; then 403 when a non-ADMIN supplies a role; then the update.
   * Nothing is stored unless the answer is the updated user.
   */
  function UpdateUser(users: Table<User>, requester: Option<AuthUser>, id: Id, body: UpdateUserBody, fmt: Formats)
    : (r: (Table<User>, Reply<PublicUser>))
    ensures ParseUpdateUser(body, fmt).Err? ==> r == (users, Next(ParseUpdateUser(body, fmt).error))
    ensures ParseUpdateUser(body, fmt).Ok? && !SelfOrAdmin(requester, id) ==> r == (users, ErrorJson(403, OwnProfileOnly, []))
    ensures (ParseUpdateUser(body, fmt).Ok? && SelfOrAdmin(requester, id) && ParseUpdateUser(body, fmt).value.role.Some?
             && !IsAdmin(requester.value)) ==> r == (users, ErrorJson(403, RolesAdminOnly, []))
    ensures r.1.Json? <==> ParseUpdateUser(body, fmt).Ok? && MayUpdate(requester, id, ParseUpdateUser(body, fmt).value)
                           && Users.UpdateUser(users, id, ParseUpdateUser(body, fmt).value).Ok?
    ensures r.1.Json? ==> r.0 == Users.UpdateUser(users, id, ParseUpdateUser(body, fmt).value).value
                          && r.1 == Json(200, Public(id, r.0[id].value))
    ensures !r.1.Json? ==> r.0 == users
  {
    match ParseUpdateUser(body, fmt)
    case Err(e) => (users, Next(e))
    case Ok(p) =>
      if !SelfOrAdmin(requester, id) then (users, ErrorJson(403, OwnProfileOnly, []))
      else if p.role.Some? && !IsAdmin(requester.value) then (users, ErrorJson(403, RolesAdminOnly, []))
      else
        match Users.UpdateUser(users, id, p)
        case Err(e) => (users, Next(e))
        case Ok(t) => (t, Json(200, Public(id, t[id].value)))
  }

  /** A body the schema refuses ends as a 500 for every requester: the handler has no validation branch. */
  lemma InvalidBodyFailsForAnyone(users: Table<User>, requester: Option<AuthUser>, id: Id, body: UpdateUserBody, fmt: Formats)
    requires body.name.Some? && |body.name.value| < 2
    ensures UpdateUser(users, requester, id, body, fmt).0 == users
    ensures UserServiceRespond(UpdateUser(users, requester, id, body, fmt).1) == ErrorJson(500, InternalErrorBang, [])
  {
  }

  /** A user who is not an ADMIN cannot give themself a role, even on their own profile. */
  lemma SelfCannotChangeRole(users: Table<User>, me: AuthUser, body: UpdateUserBody, fmt: Formats)
    requires !IsAdmin(me)
    requires ParseUpdateUser(body, fmt).Ok? && body.role.Some?
    ensures UpdateUser(users, Some(me), me.userId, body, fmt) == (users, ErrorJson(403, RolesAdminOnly, []))
  {
  }

  /**
   * `changeUserPassword`: 401 "Not authenticated" without a requester; then the body is parsed
   * and the requester's own password is changed.
   */
  function ChangeUserPassword(users: Table<User>, requester: Option<AuthUser>, body: ChangePasswordBody, crypto: Crypto)
    : (r: (Table<User>, Reply<string>))
    ensures requester.None? ==> r == (users, ErrorJson(401, NotAuthenticated, []))
    ensures requester.Some? && ParseChangePassword(body).Err? ==> r == (users, Next(ParseChangePassword(body).error))
    ensures r.1.Json? <==> requester.Some? && ParseChangePassword(body).Ok?
                           && Users.ChangePasswordUserService(users, requester.value.userId, ParseChangePassword(body).value, crypto).Ok?
    ensures r.1.Json? ==> r == (Users.ChangePasswordUserService(users, requester.value.userId, ParseChangePassword(body).value, crypto).value.0,
                                Json(200, Users.PasswordChanged))
    ensures !r.1.Json? ==> r.0 == users
  {
    if requester.None? then (users, ErrorJson(401, NotAuthenticated, []))
    else
      match ParseChangePassword(body)
      case Err(e) => (users, Next(e))
      case Ok(input) =>
        match Users.ChangePasswordUserService(users, requester.value.userId, input, crypto)
        case Err(e) => (users, Next(e))
        case Ok((t, message)) => (t, Json(200, message))
  }

  /** A wrong current password reaches the client as the service's 400, through the handler. */
  lemma WrongPasswordIs400(users: Table<User>, me: AuthUser, body: ChangePasswordBody, crypto: Crypto)
    requires ParseChangePassword(body).Ok? && Live(users, me.userId)
    requires !crypto.matches(ParseChangePassword(body).value.currentPassword, users[me.userId].value.password)
    ensures UserServiceRespond(ChangeUserPassword(users, Some(me), body, crypto).1) == ErrorJson(400, Users.WrongPassword, [])
  {
  }

  /** `getUserSessionsController`: 403 unless self or ADMIN; otherwise that user's attendance records. */
  method UserSessions(att: Attendances, requester: Option<AuthUser>, id: Id, eventId: Option<string>)
    returns (r: Reply<seq<(Id, Attendance)>>)
    ensures !SelfOrAdmin(requester, id) <==> r == ErrorJson(403, OwnSessionsOnly, [])
    ensures SelfOrAdmin(requester, id) ==> r.Json? && r.status == 200
    ensures r.Json? ==> forall s :: s in Users.SessionIds(r.payload) <==> Users.Selected(att, id, eventId, (id, s))
    ensures r.Json? ==> forall i :: 0 <= i < |r.payload| ==> (id, r.payload[i].0) in att && r.payload[i].1 == att[(id, r.payload[i].0)]
    ensures r.Json? ==> forall i, j :: 0 <= i < j < |r.payload| ==> r.payload[i].0 != r.payload[j].0
    ensures r.Json? ==> forall i, j :: 0 <= i < j < |r.payload| ==> r.payload[i].1.createdAt >= r.payload[j].1.createdAt
  {
    if !SelfOrAdmin(requester, id) {
      r := ErrorJson(403, OwnSessionsOnly, []);
    } else {
      var records := Users.UserSessionsUserService(att, id, eventId);
      r := Json(200, records);
    }
  }

  /**
   * `attendSessionController`: 401 without a requester; 400 when `sessionId` or `eventId` is
   * missing or empty; otherwise the requester's attendance is recorded and answered with 201.
   */
  function AttendSession(att: Attendances, requester: Option<AuthUser>, sessionId: Option<string>, eventId: Option<string>, now: Date)
    : (r: (Attendances, Reply<Attendance>))
    ensures requester.None? ==> r == (att, ErrorJson(401, NotAuthenticated, []))
    ensures requester.Some? && !(Truthy(sessionId) && Truthy(eventId)) ==> r == (att, ErrorJson(400, AttendFieldsRequired, []))
    ensures r.1.Json? <==> requester.Some? && Truthy(sessionId) && Truthy(eventId)
    ensures r.1.Json? ==> r.1.status == 201 && (requester.value.userId, sessionId.value) in r.0
    ensures r.1.Json? ==> r == (Sessions.AttendSession(att, requester.value.userId, sessionId.value, eventId.value, now).0,
                                Json(201, Sessions.AttendSession(att, requester.value.userId, sessionId.value, eventId.value, now).1))
  {
    if requester.None? then (att, ErrorJson(401, NotAuthenticated, []))
    else if !(Truthy(sessionId) && Truthy(eventId)) then (att, ErrorJson(400, AttendFieldsRequired, []))
    else
      var (t, record) := Sessions.AttendSession(att, requester.value.userId, sessionId.value, eventId.value, now);
      (t, Json(201, record))
  }
}

/**
 * The users controller of the monolith (monolith/src/modules/users/controller.ts). Every refusal
 * is thrown as an AppError for the error handler. The requester is always present: these routes
 * sit behind the authentication middleware and the controller asserts `req.user!`.
 */
module MonolithUsers {
  import opened Wrappers
  import opened Failures
  import opened Tables
  import opened Domain
  import opened SchemaChecks
  import opened UserSchemas
  import opened ErrorHandlers
  import Users
  import UserServiceUsers

  const UserNotFound := "User not found!"
  const OwnProfileOnly := "You can only update your own profile!"
  const RolesAdminOnly := "Only admins can change user roles!"
  const OwnEventsOnly := "You can only view your own events"
  const OwnSessionsOnly := "You can only view your own sessions"

  /**
   * `getUser`: an empty lookup throws AppError("User not found!", 404). As written the lookup is
   * empty only for an unknown id, so a soft-deleted user is answered with 200.
   */
  function GetUser(users: Table<User>, id: Id): (r: Reply<PublicUser>)
    ensures r == Next(App(UserNotFound, 404, true)) <==> id !in users
    ensures r.Json? <==> id in users
    ensures r.Json? ==> r == Json(200, Public(id, users[id].value))
  {
    match Users.GetUserById(users, id)
    case None => Next(AppError(UserNotFound, Some(404)))
    case Some(u) => Json(200, u)
  }

  /** `updateUser`: parse, then the two permission rules as AppErrors 403, then the update. */
  function UpdateUser(users: Table<User>, requester: AuthUser, id: Id, body: UpdateUserBody, fmt: Formats)
    : (r: (Table<User>, Reply<PublicUser>))
    ensures ParseUpdateUser(body, fmt).Err? ==> r == (users, Next(ParseUpdateUser(body, fmt).error))
    ensures ParseUpdateUser(body, fmt).Ok? && !SelfOrAdmin(Some(requester), id) ==> r == (users, Next(App(OwnProfileOnly, 403, true)))
    ensures (ParseUpdateUser(body, fmt).Ok? && SelfOrAdmin(Some(requester), id) && ParseUpdateUser(body, fmt).value.role.Some?
             && !IsAdmin(requester)) ==> r == (users, Next(App(RolesAdminOnly, 403, true)))
    ensures r.1.Json? <==> ParseUpdateUser(body, fmt).Ok? && UserServiceUsers.MayUpdate(Some(requester), id, ParseUpdateUser(body, fmt).value)
                           && Users.UpdateUser(users, id, ParseUpdateUser(body, fmt).value).Ok?
    ensures r.1.Json? ==> r.0 == Users.UpdateUser(users, id, ParseUpdateUser(body, fmt).value).value
                          && r.1 == Json(200, Public(id, r.0[id].value))
    ensures !r.1.Json? ==> r.0 == users
  {
    match ParseUpdateUser(body, fmt)
    case Err(e) => (users, Next(e))
    case Ok(p) =>
      if !SelfOrAdmin(Some(requester), id) then (users, Next(AppError(OwnProfileOnly, Some(403))))
      else if p.role.Some? && !IsAdmin(requester) then (users, Next(AppError(RolesAdminOnly, Some(403))))
      else
        match Users.UpdateUser(users, id, p)
        case Err(e) => (users, Next(e))
        case Ok(t) => (t, Json(200, Public(id, t[id].value)))
  }

  /** The monolith and the user service accept the same updates from the same requester, with the same result. */
  lemma UpdateUserControllersAgree(users: Table<User>, requester: AuthUser, id: Id, body: UpdateUserBody, fmt: Formats)
    ensures UpdateUser(users, requester, id, body, fmt).1.Json? <==> UserServiceUsers.UpdateUser(users, Some(requester), id, body, fmt).1.Json?
    ensures UpdateUser(users, requester, id, body, fmt).1.Json? ==>
            UpdateUser(users, requester, id, body, fmt) == UserServiceUsers.UpdateUser(users, Some(requester), id, body, fmt)
  {
  }

  /** In the monolith a refused body is a 400 with one detail per issue, whoever sends it. */
  lemma InvalidBodyIs400(users: Table<User>, requester: AuthUser, id: Id, body: UpdateUserBody, fmt: Formats, production: bool)
    requires ParseUpdateUser(body, fmt).Err?
    ensures MonolithRespond(UpdateUser(users, requester, id, body, fmt).1, production)
            == ErrorJson(400, ValidationFailed, Details(ParseUpdateUser(body, fmt).error.issues))
  {
  }

  /** `deleteUser`: a soft delete answered 204 with no body. */
  function DeleteUser(users: Table<User>, id: Id): (r: (Table<User>, Reply<()>))
    ensures r.1 == NoContent <==> id in users
    ensures r.1 == NoContent ==> r.0 == Users.DeleteUser(users, id).value && !Live(r.0, id)
    ensures r.1 == NoContent ==> GetUser(r.0, id) == GetUser(users, id)
    ensures id !in users ==> r == (users, Next(Plain(UpdateMissing)))
  {
    match Users.DeleteUser(users, id)
    case Err(e) => (users, Next(e))
    case Ok(t) => (t, NoContent)
  }

  /** `getUserEvents`: AppError 403 unless self or ADMIN; otherwise the user's enrolled events. */
  method GetUserEvents(events: Table<Event>, enrolments: Enrolments, requester: AuthUser, id: Id) returns (r: Reply<seq<(Id, Event)>>)
    requires forall p :: p in enrolments ==> p.1 in events
    ensures !SelfOrAdmin(Some(requester), id) <==> r == Next(App(OwnEventsOnly, 403, true))
    ensures SelfOrAdmin(Some(requester), id) ==> r.Json? && r.status == 200
    ensures r.Json? ==> forall e :: e in IdsOf(r.payload) <==> (id, e) in enrolments
    ensures r.Json? ==> forall i :: 0 <= i < |r.payload| ==> r.payload[i].0 in events && r.payload[i].1 == events[r.payload[i].0].value
    ensures r.Json? ==> forall i, j :: 0 <= i < j < |r.payload| ==> r.payload[i].0 != r.payload[j].0
    ensures r.Json? ==> forall i, j :: 0 <= i < j < |r.payload| ==> r.payload[i].1.date >= r.payload[j].1.date
  {
    if !SelfOrAdmin(Some(requester), id) {
      r := Next(AppError(OwnEventsOnly, Some(403)));
    } else {
      var rows := Users.GetUserEvents(events, enrolments, id);
      r := Json(200, rows);
    }
  }

  /** `getUserSessions`: AppError 403 unless self or ADMIN; otherwise the user's attendance records. */
  method GetUserSessions(sessions: Table<Session>, att: Attendances, requester: AuthUser, id: Id, eventId: Option<string>)
    returns (r: Reply<seq<(Id, Attendance)>>)
    requires forall p :: p in att ==> p.1 in sessions
    ensures !SelfOrAdmin(Some(requester), id) <==> r == Next(App(OwnSessionsOnly, 403, true))
    ensures SelfOrAdmin(Some(requester), id) ==> r.Json? && r.status == 200
    ensures r.Json? ==> forall s :: s in Users.SessionIds(r.payload) <==> Users.Selected(att, id, eventId, (id, s))
    ensures r.Json? ==> forall i :: 0 <= i < |r.payload| ==> (id, r.payload[i].0) in att && r.payload[i].1 == att[(id, r.payload[i].0)]
    ensures r.Json? ==> forall i, j :: 0 <= i < j < |r.payload| ==> r.payload[i].0 != r.payload[j].0
    ensures r.Json? ==> forall i, j :: 0 <= i < j < |r.payload| ==>
              sessions[r.payload[i].0].value.date >= sessions[r.payload[j].0].value.date
  {
    if !SelfOrAdmin(Some(requester), id) {
      r := Next(AppError(OwnSessionsOnly, Some(403)));
    } else {
      var records := Users.UserSessionsMonolith(sessions, att, id, eventId);
      r := Json(200, records);
    }
  }
}
