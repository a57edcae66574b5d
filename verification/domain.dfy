/**
 * The entities of the conference back end and the relations between them.
 * Dates are opaque instants, ordered as integers; the clock and date parsing are
 * parameters of the operations that need them.
 */
module Domain {
  import opened Wrappers
  import opened Tables
  import opened Failures

  /** An instant (the `DateTime` columns), compared as an integer. */
  type Date = int

  /**
   * The date of a creation, converted with `new Date(text)`; text that is no date gives an
   * invalid instant, which the store refuses.
   */
  function StoreDate(text: string, toDate: string -> Option<Date>): (r: Result<Date, Failure>)
    ensures r.Ok? <==> toDate(text).Some?
    ensures r.Ok? ==> r.value == toDate(text).value
    ensures r.Err? ==> r.error == Plain(InvalidDate)
  {
    if toDate(text).Some? then Ok(toDate(text).value) else Err(Plain(InvalidDate))
  }

  /**
   * The date of an update: converted only when it is supplied as non-empty text.
   * Text that is no date, and the empty text handed over unconverted, are refused by the store.
   */
  function PatchDate(date: Option<string>, toDate: string -> Option<Date>): (r: Result<Option<Date>, Failure>)
    ensures date.None? ==> r == Ok(None)
    ensures date.Some? && date.value != "" && toDate(date.value).Some? ==> r == Ok(toDate(date.value))
    ensures date.Some? && (date.value == "" || toDate(date.value).None?) ==> r == Err(Plain(InvalidDate))
  {
    if date.None? then Ok(None)
    else if date.value != "" && toDate(date.value).Some? then Ok(toDate(date.value))
    else Err(Plain(InvalidDate))
  }

  datatype Role = USER | ADMIN

  /** The text form of a role, as it appears in request bodies and token payloads. */
  function RoleName(r: Role): string {
    match r
    case USER => "USER"
    case ADMIN => "ADMIN"
  }

  /** Reads a role from its text form; anything else is not a role. */
  function ParseRole(s: string): (r: Option<Role>)
    ensures r.Some? ==> RoleName(r.value) == s
  {
    if s == "USER" then Some(USER) else if s == "ADMIN" then Some(ADMIN) else None
  }

  lemma RoleRoundTrip(r: Role)
    ensures ParseRole(RoleName(r)) == Some(r)
  {
  }

  datatype SessionKind = WORKSHOP | TALK | PANEL | NETWORKING

  function KindName(k: SessionKind): string {
    match k
    case WORKSHOP => "WORKSHOP"
    case TALK => "TALK"
    case PANEL => "PANEL"
    case NETWORKING => "NETWORKING"
  }

  /** Reads a session type from its text form; anything else is not a session type. */
  function ParseKind(s: string): (k: Option<SessionKind>)
    ensures k.Some? ==> KindName(k.value) == s
  {
    if s == "WORKSHOP" then Some(WORKSHOP)
    else if s == "TALK" then Some(TALK)
    else if s == "PANEL" then Some(PANEL)
    else if s == "NETWORKING" then Some(NETWORKING)
    else None
  }

  lemma KindRoundTrip(k: SessionKind)
    ensures ParseKind(KindName(k)) == Some(k)
  {
  }

  datatype Event = Event(name: string, organization: string, date: Date, description: string, logo: Option<string>)

  datatype Session = Session(
    name: string, kind: SessionKind, local: string, date: Date,
    duration: real, time: string, mandatory: bool, eventId: Id)

  datatype Speaker = Speaker(name: string, avatar: Option<string>, description: string)

  /** A user as stored: `password` holds the hash, never the clear text. */
  datatype User = User(name: string, email: string, password: string, role: Role)

  /** A user as the services return it: the password column is never selected. */
  datatype PublicUser = PublicUser(id: Id, name: string, email: string, role: Role)

  function Public(id: Id, u: User): PublicUser {
    PublicUser(id, u.name, u.email, u.role)
  }

  /** A `userSessions` record; `createdAt` is stamped when the record is created. */
  datatype Attendance = Attendance(eventId: Id, attended: bool, createdAt: Date)

  /** `userEvents`, unique on (userId, eventId). */
  type Enrolments = set<(Id, Id)>
  /** `sessionSpeakers`, unique on (sessionId, speakerId). */
  type SpeakerLinks = set<(Id, Id)>
  /** `userSessions`, unique on (userId, sessionId). */
  type Attendances = map<(Id, Id), Attendance>

  /** The authenticated requester (`req.user`), which is also the token payload. */
  datatype AuthUser = AuthUser(userId: string, email: string, role: string)

  predicate IsAdmin(u: AuthUser) {
    u.role == RoleName(ADMIN)
  }

  /**
   * The permission rule of the user routes: the requester is the target user or an ADMIN.
   * No requester fails it, as `req.user?.userId !== id && req.user?.role !== 'ADMIN'` does.
   */
  predicate SelfOrAdmin(requester: Option<AuthUser>, id: Id) {
    requester.Some? && (requester.value.userId == id || IsAdmin(requester.value))
  }

  /** A request field that is present and not the empty text: JavaScript truthiness of a string. */
  predicate Truthy(s: Option<string>) {
    s.Some? && s.value != ""
  }

  /**
   * Password hashing, a parameter: `hash` stands for `bcrypt.hash` and `matches(plain, hashed)`
   * for `bcrypt.compare`.
   */
  datatype Crypto = Crypto(hash: string -> string, matches: (string, string) -> bool)

  /** What the services rely on: a password always matches its own hash. */
  ghost predicate Sound(c: Crypto) {
    forall p :: c.matches(p, c.hash(p))
  }
}
