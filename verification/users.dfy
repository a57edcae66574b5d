/**
 * The users service of the monolith (monolith/src/modules/users/service.ts) and of the user
 * service (microservices/user-service/src/modules/users/service.ts). Lookups, listings,
 * updates and deletes behave alike; `changePassword` throws plain errors in the monolith and
 * AppErrors with a status in the user service; the attendance listings differ in their order.
 */
module Users {
  import opened Wrappers
  import opened Failures
  import opened Tables
  import opened Domain
  import opened Sorting
  import opened UserSchemas
  import Events
  import Sessions

  const UserNotFound := "User not found"
  const WrongPassword := "Current password is incorrect"
  const PasswordChanged := "Password changed successfully"
  /** The store's refusal of a second user with the same email (its unique index). */
  const EmailTaken := "Unique constraint failed on the fields: (`email`)"

  /** The unique index on `email`: no two stored users, deleted or not, share one. */
  predicate UniqueEmails(users: Table<User>) {
    forall a, b :: a in users && b in users && users[a].value.email == users[b].value.email ==> a == b
  }

  predicate EmailInUse(users: Table<User>, email: string) {
    exists k :: k in users && users[k].value.email == email
  }

  /** `findUnique({ where: { email } })`: the user, deleted or not, that holds the email. */
  function ByEmail(users: Table<User>, email: string): (r: Option<Id>)
    requires UniqueEmails(users)
    ensures r.Some? <==> EmailInUse(users, email)
    ensures r.Some? ==> r.value in users && users[r.value].value.email == email
  {
    if EmailInUse(users, email) then Some(var k :| k in users && users[k].value.email == email; k) else None
  }

  /**
   * `getUserById` as written. Its `select` leaves out the `deleted` column, so the test of
   * `deleted` that follows reads an absent field and never refuses: a soft-deleted user is
   * still returned, without its password.
   */
  function GetUserById(users: Table<User>, id: Id): (r: Option<PublicUser>)
    ensures r.Some? <==> id in users
    ensures r.Some? ==> r.value.id == id && r.value.name == users[id].value.name
    ensures r.Some? ==> r.value.email == users[id].value.email && r.value.role == users[id].value.role
  {
    if id in users then Some(Public(id, users[id].value)) else None
  }

  /**
   * The lookup the `deleted` test evidently intends, as every other `getXById` and `getMe`
   * behave: nothing for a missing or deleted user, otherwise the user without its password.
   */
  function GetLiveUserById(users: Table<User>, id: Id): (r: Option<PublicUser>)
    ensures r.Some? <==> Live(users, id)
    ensures r.Some? ==> Some(r.value) == GetUserById(users, id)
  {
    if Live(users, id) then Some(Public(id, users[id].value)) else None
  }

  function UserName(users: Table<User>, id: Id): string {
    if id in users then users[id].value.name else ""
  }

  /** The ids of a user listing. */
  function UserIds(r: seq<PublicUser>): set<Id> {
    set i | 0 <= i < |r| :: r[i].id
  }

  /** `listUsers`: every non-deleted user once, without passwords, by ascending name in the database's collation. */
  method ListUsers(users: Table<User>, collate: (string, string) -> bool) returns (r: seq<PublicUser>)
    requires TotalPreorder(collate)
    ensures forall id :: id in UserIds(r) <==> Live(users, id)
    ensures forall i :: 0 <= i < |r| ==> r[i].id in users && r[i] == Public(r[i].id, users[r[i].id].value)
    ensures forall i, j :: 0 <= i < j < |r| ==> r[i].id != r[j].id
    ensures forall i, j :: 0 <= i < j < |r| ==> collate(r[i].name, r[j].name)
  {
    var le := Alphabetical((id: Id) => UserName(users, id), collate);
    AlphabeticalIsTotalPreorder((id: Id) => UserName(users, id), collate);
    var ids := SortedSelection(users.Keys, (id: Id) => Live(users, id), le);
    r := seq(|ids|, i requires 0 <= i < |ids| => Public(ids[i], users[ids[i]].value));
    forall i | 0 <= i < |r| ensures r[i].id == ids[i] && ids[i] in users {
      assert r[i] == Public(ids[i], users[ids[i]].value);
    }
    forall id | Live(users, id) ensures id in UserIds(r) {
      var i :| 0 <= i < |ids| && ids[i] == id;
      assert r[i].id == id;
    }
    forall i, j | 0 <= i < j < |r| ensures collate(r[i].name, r[j].name) {
      assert le(ids[i], ids[j]);
    }
  }

  /** The user after an update: supplied name, email and role replace the stored ones; the password stays. */
  function ApplyUserPatch(u: User, p: UserPatch): (r: User)
    ensures r.name == p.name.GetOr(u.name) && r.email == p.email.GetOr(u.email) && r.role == p.role.GetOr(u.role)
    ensures r.password == u.password
  {
    User(p.name.GetOr(u.name), p.email.GetOr(u.email), u.password, p.role.GetOr(u.role))
  }

  /** Another stored user already holds `email`. */
  predicate HeldByOther(users: Table<User>, id: Id, email: string) {
    exists k :: k in users && k != id && users[k].value.email == email
  }

  /**
   * `updateUser`: a missing id is refused first, then an email another user holds;
   * otherwise only the supplied fields of that user change.
   */
  function UpdateUser(users: Table<User>, id: Id, p: UserPatch): (r: Result<Table<User>, Failure>)
    ensures id !in users ==> r == Err(Plain(UpdateMissing))
    ensures id in users && p.email.Some? && HeldByOther(users, id, p.email.value) ==> r == Err(Plain(EmailTaken))
    ensures r.Ok? <==> id in users && (p.email.None? || !HeldByOther(users, id, p.email.value))
    ensures r.Ok? ==> r.value.Keys == users.Keys && r.value[id] == Row(ApplyUserPatch(users[id].value, p), users[id].deleted)
    ensures r.Ok? ==> forall k :: k in users && k != id ==> r.value[k] == users[k]
  {
    if id !in users then Err(Plain(UpdateMissing))
    else if p.email.Some? && HeldByOther(users, id, p.email.value) then Err(Plain(EmailTaken))
    else Update(users, id, (u: User) => ApplyUserPatch(u, p))
  }

  /** An accepted update keeps every email unique. */
  lemma UpdateKeepsEmailsUnique(users: Table<User>, id: Id, p: UserPatch)
    requires UniqueEmails(users)
    requires UpdateUser(users, id, p).Ok?
    ensures UniqueEmails(UpdateUser(users, id, p).value)
  {
    var t := UpdateUser(users, id, p).value;
    forall a, b | a in t && b in t && a != b ensures t[a].value.email != t[b].value.email {
      if (a == id || b == id) && p.email.Some? {
        var other := if a == id then b else a;
        assert t[other] == users[other];
        assert !(other in users && other != id && users[other].value.email == p.email.value);
      }
    }
  }

  /** `deleteUser`: a soft delete; the user stays stored and is hidden from lookups. */
  function DeleteUser(users: Table<User>, id: Id): (r: Result<Table<User>, Failure>)
    ensures r.Err? <==> id !in users
    ensures r.Ok? ==> r.value.Keys == users.Keys && r.value[id] == Row(users[id].value, true)
    ensures r.Ok? ==> !Live(r.value, id)
    ensures r.Ok? ==> forall k :: k in users && k != id ==> r.value[k] == users[k]
  {
    SoftDelete(users, id)
  }

  /** As written, the lookup of a deleted user still answers it, unchanged. */
  lemma DeletedUserStillReturned(users: Table<User>, id: Id)
    requires id in users
    ensures DeleteUser(users, id).Ok?
    ensures GetUserById(DeleteUser(users, id).value, id).Some?
    ensures GetUserById(DeleteUser(users, id).value, id) == GetUserById(users, id)
  {
  }

  /** With the intended lookup, a deleted user is hidden and every other lookup answers as before. */
  lemma DeleteHidesUser(users: Table<User>, id: Id)
    requires id in users
    ensures DeleteUser(users, id).Ok?
    ensures GetLiveUserById(DeleteUser(users, id).value, id).None?
    ensures forall k :: k != id ==> GetLiveUserById(DeleteUser(users, id).value, k) == GetLiveUserById(users, k)
  {
  }

  /** The password change both services perform, with the failures each one throws. */
  function ChangePassword(users: Table<User>, userId: Id, input: ChangePasswordInput, crypto: Crypto,
                          notFound: Failure, wrong: Failure): Result<(Table<User>, string), Failure>
  {
    if !Live(users, userId) then Err(notFound)
    else if !crypto.matches(input.currentPassword, users[userId].value.password) then Err(wrong)
    else
      var u := users[userId].value;
      Ok((users[userId := Row(u.(password := crypto.hash(input.newPassword)), false)], PasswordChanged))
  }

  /**
   * The monolith's `changePassword`: "User not found" for a missing or deleted user, then
   * "Current password is incorrect"; on success only the stored hash changes.
   */
  function ChangePasswordMonolith(users: Table<User>, userId: Id, input: ChangePasswordInput, crypto: Crypto): (r: Result<(Table<User>, string), Failure>)
    ensures !Live(users, userId) ==> r == Err(Plain(UserNotFound))
    ensures Live(users, userId) && !crypto.matches(input.currentPassword, users[userId].value.password)
            ==> r == Err(Plain(WrongPassword))
    ensures r.Ok? <==> Live(users, userId) && crypto.matches(input.currentPassword, users[userId].value.password)
    ensures r.Ok? ==> r.value.1 == PasswordChanged && r.value.0.Keys == users.Keys
    ensures r.Ok? ==> r.value.0[userId] == Row(users[userId].value.(password := crypto.hash(input.newPassword)), false)
    ensures r.Ok? ==> forall k :: k in users && k != userId ==> r.value.0[k] == users[k]
  {
    ChangePassword(users, userId, input, crypto, Plain(UserNotFound), Plain(WrongPassword))
  }

  /**
   * The user service's `changePassword`: AppError 404 for a missing or deleted user, then
   * AppError 400 for a wrong current password; on success only the stored hash changes.
   */
  function ChangePasswordUserService(users: Table<User>, userId: Id, input: ChangePasswordInput, crypto: Crypto): (r: Result<(Table<User>, string), Failure>)
    ensures !Live(users, userId) ==> r == Err(App(UserNotFound, 404, true))
    ensures Live(users, userId) && !crypto.matches(input.currentPassword, users[userId].value.password)
            ==> r == Err(App(WrongPassword, 400, true))
    ensures r.Ok? <==> Live(users, userId) && crypto.matches(input.currentPassword, users[userId].value.password)
    ensures r.Ok? ==> r.value.1 == PasswordChanged && r.value.0.Keys == users.Keys
    ensures r.Ok? ==> r.value.0[userId] == Row(users[userId].value.(password := crypto.hash(input.newPassword)), false)
    ensures r.Ok? ==> forall k :: k in users && k != userId ==> r.value.0[k] == users[k]
  {
    ChangePassword(users, userId, input, crypto, AppError(UserNotFound, Some(404)), AppError(WrongPassword, Some(400)))
  }

  /** The two services accept and refuse the same password changes, with the same outcome on success. */
  lemma ChangePasswordServicesAgree(users: Table<User>, userId: Id, input: ChangePasswordInput, crypto: Crypto)
    ensures ChangePasswordMonolith(users, userId, input, crypto).Ok? <==> ChangePasswordUserService(users, userId, input, crypto).Ok?
    ensures ChangePasswordMonolith(users, userId, input, crypto).Ok? ==>
            ChangePasswordMonolith(users, userId, input, crypto) == ChangePasswordUserService(users, userId, input, crypto)
  {
  }

  /** After a change, with a sound hash, the new password is the one that matches and the other users' data is intact. */
  lemma NewPasswordMatchesAfterChange(users: Table<User>, userId: Id, input: ChangePasswordInput, crypto: Crypto)
    requires Sound(crypto)
    requires UniqueEmails(users)
    requires ChangePasswordUserService(users, userId, input, crypto).Ok?
    ensures var t := ChangePasswordUserService(users, userId, input, crypto).value.0;
            Live(t, userId) && crypto.matches(input.newPassword, t[userId].value.password) && UniqueEmails(t)
  {
    var t := ChangePasswordUserService(users, userId, input, crypto).value.0;
    assert crypto.matches(input.newPassword, crypto.hash(input.newPassword));
    forall a, b | a in t && b in t && t[a].value.email == t[b].value.email ensures a == b {
      assert t[a].value.email == users[a].value.email && t[b].value.email == users[b].value.email;
    }
  }

  /** `getUserEvents`: the events the user is enrolled in, deleted or not, latest date first. */
  method GetUserEvents(events: Table<Event>, enrolments: Enrolments, userId: Id) returns (r: seq<(Id, Event)>)
    requires forall p :: p in enrolments ==> p.1 in events
    ensures forall id :: id in IdsOf(r) <==> (userId, id) in enrolments
    ensures forall i :: 0 <= i < |r| ==> r[i].0 in events && r[i].1 == events[r[i].0].value
    ensures forall i, j :: 0 <= i < j < |r| ==> r[i].0 != r[j].0
    ensures forall i, j :: 0 <= i < j < |r| ==> r[i].1.date >= r[j].1.date
  {
    var rank := (p: (Id, Id)) => Events.EventDate(events, p.1);
    var le := Descending(rank);
    DescendingIsTotalPreorder(rank);
    var ps := SortedSelection(enrolments, (p: (Id, Id)) => p.0 == userId, le);
    r := seq(|ps|, i requires 0 <= i < |ps| => (ps[i].1, events[ps[i].1].value));
    forall i | 0 <= i < |r| ensures ps[i] == (userId, r[i].0) && r[i].1 == events[r[i].0].value {
      assert ps[i] in ps;
      assert r[i] == (ps[i].1, events[ps[i].1].value);
    }
    forall id | (userId, id) in enrolments ensures id in IdsOf(r) {
      var i :| 0 <= i < |ps| && ps[i] == (userId, id);
      assert r[i].0 == id;
    }
    forall i, j | 0 <= i < j < |r| ensures r[i].1.date >= r[j].1.date {
      assert le(ps[i], ps[j]);
    }
  }

  /** The attendance records of one user, restricted to an event when a non-empty event id is given. */
  predicate Selected(att: Attendances, userId: Id, eventId: Option<string>, p: (Id, Id)) {
    p in att && p.0 == userId && Sessions.InFilter(Sessions.EventFilter(eventId), att[p].eventId)
  }

  /** The ids of the sessions in an attendance listing. */
  function SessionIds(r: seq<(Id, Attendance)>): set<Id> {
    set i | 0 <= i < |r| :: r[i].0
  }

  /**
   * The monolith's `getUserSessions`: the user's attendance records (of one event when given),
   * latest session date first.
   */
  method UserSessionsMonolith(sessions: Table<Session>, att: Attendances, userId: Id, eventId: Option<string>)
    returns (r: seq<(Id, Attendance)>)
    requires forall p :: p in att ==> p.1 in sessions
    ensures forall s :: s in SessionIds(r) <==> Selected(att, userId, eventId, (userId, s))
    ensures forall i :: 0 <= i < |r| ==> (userId, r[i].0) in att && r[i].1 == att[(userId, r[i].0)]
    ensures forall i, j :: 0 <= i < j < |r| ==> r[i].0 != r[j].0
    ensures forall i, j :: 0 <= i < j < |r| ==> sessions[r[i].0].value.date >= sessions[r[j].0].value.date
  {
    var rank := (p: (Id, Id)) => Sessions.SessionDate(sessions, p.1);
    var le := Descending(rank);
    DescendingIsTotalPreorder(rank);
    var ps := SortedSelection(att.Keys, (p: (Id, Id)) => Selected(att, userId, eventId, p), le);
    r := seq(|ps|, i requires 0 <= i < |ps| => (ps[i].1, att[ps[i]]));
    forall i | 0 <= i < |r| ensures ps[i] == (userId, r[i].0) && r[i].1 == att[ps[i]] {
      assert ps[i] in ps;
      assert r[i] == (ps[i].1, att[ps[i]]);
    }
    forall s | s in SessionIds(r) ensures Selected(att, userId, eventId, (userId, s)) {
      var i :| 0 <= i < |r| && r[i].0 == s;
      assert ps[i] in ps;
    }
    forall s | Selected(att, userId, eventId, (userId, s)) ensures s in SessionIds(r) {
      var i :| 0 <= i < |ps| && ps[i] == (userId, s);
      assert r[i].0 == s;
    }
    forall i, j | 0 <= i < j < |r| ensures sessions[r[i].0].value.date >= sessions[r[j].0].value.date {
      assert le(ps[i], ps[j]);
    }
  }

  /**
   * The user service's `getUserSessions`: the same records, newest record first (this service
   * holds no session dates).
   */
  method UserSessionsUserService(att: Attendances, userId: Id, eventId: Option<string>) returns (r: seq<(Id, Attendance)>)
    ensures forall s :: s in SessionIds(r) <==> Selected(att, userId, eventId, (userId, s))
    ensures forall i :: 0 <= i < |r| ==> (userId, r[i].0) in att && r[i].1 == att[(userId, r[i].0)]
    ensures forall i, j :: 0 <= i < j < |r| ==> r[i].0 != r[j].0
    ensures forall i, j :: 0 <= i < j < |r| ==> r[i].1.createdAt >= r[j].1.createdAt
  {
    var rank := (p: (Id, Id)) => if p in att then att[p].createdAt else 0;
    var le := Descending(rank);
    DescendingIsTotalPreorder(rank);
    var ps := SortedSelection(att.Keys, (p: (Id, Id)) => Selected(att, userId, eventId, p), le);
    r := seq(|ps|, i requires 0 <= i < |ps| => (ps[i].1, att[ps[i]]));
    forall i | 0 <= i < |r| ensures ps[i] == (userId, r[i].0) && r[i].1 == att[ps[i]] {
      assert ps[i] in ps;
      assert r[i] == (ps[i].1, att[ps[i]]);
    }
    forall s | s in SessionIds(r) ensures Selected(att, userId, eventId, (userId, s)) {
      var i :| 0 <= i < |r| && r[i].0 == s;
      assert ps[i] in ps;
    }
    forall s | Selected(att, userId, eventId, (userId, s)) ensures s in SessionIds(r) {
      var i :| 0 <= i < |ps| && ps[i] == (userId, s);
      assert r[i].0 == s;
    }
    forall i, j | 0 <= i < j < |r| ensures r[i].1.createdAt >= r[j].1.createdAt {
      assert le(ps[i], ps[j]);
    }
  }
}
