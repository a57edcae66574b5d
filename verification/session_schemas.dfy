/** The monolith's session schemas: creation (all rules, time pattern, defaults) and partial update. */
module SessionSchemas {
  import opened Wrappers
  import opened Failures
  import opened Domain
  import opened SchemaChecks
  import opened TimeFormat

  /** The fields of a session body, each possibly absent. */
  datatype SessionBody = SessionBody(
    name: Option<string>, kind: Option<string>, local: Option<string>, date: Option<string>,
    duration: Option<real>, time: Option<string>, mandatory: Option<bool>, eventId: Option<string>)

  /** A validated creation body; `date` is still text, converted by the service. */
  datatype SessionInput = SessionInput(
    name: string, kind: SessionKind, local: string, date: string,
    duration: real, time: string, mandatory: Option<bool>, eventId: string)

  /** A validated update body: only the supplied fields. */
  datatype SessionPatch = SessionPatch(
    name: Option<string>, kind: Option<SessionKind>, local: Option<string>, date: Option<string>,
    duration: Option<real>, time: Option<string>, mandatory: Option<bool>, eventId: Option<string>)

  const NameTooShort := "Name must be at least 3 characters"
  const LocalTooShort := "Local must be at least 2 characters"
  const BadDatetime := "Invalid datetime format"
  const BadDuration := "Duration must be a positive number"
  const BadTime := "Time must be in HH:MM format"
  const BadEventId := "Invalid event ID"

  /** The duration rule of both monolith schemas: a positive integer. */
  predicate DurationOk(d: real) {
    IsInteger(d) && d > 0.0
  }

  /** The rules of a session creation, stated field by field. */
  predicate CreateSessionAccepted(b: SessionBody, fmt: Formats) {
    && b.name.Some? && |b.name.value| >= 3
    && b.kind.Some? && b.kind.value in {"WORKSHOP", "TALK", "PANEL", "NETWORKING"}
    && b.local.Some? && |b.local.value| >= 2
    && b.date.Some? && fmt.isDatetime(b.date.value)
    && b.duration.Some? && DurationOk(b.duration.value)
    && b.time.Some? && MatchesTimePattern(b.time.value)
    && b.eventId.Some? && fmt.isUuid(b.eventId.value)
  }

  function CreateSessionIssues(b: SessionBody, fmt: Formats): seq<Issue> {
    (if b.name.None? then Missing("name") else Flag(|b.name.value| >= 3, "name", NameTooShort))
    + (if b.kind.None? then Missing("type") else Flag(ParseKind(b.kind.value).Some?, "type", InvalidEnum))
    + (if b.local.None? then Missing("local") else Flag(|b.local.value| >= 2, "local", LocalTooShort))
    + (if b.date.None? then Missing("date") else Flag(fmt.isDatetime(b.date.value), "date", BadDatetime))
    + (if b.duration.None? then Missing("duration")
       else Flag(IsInteger(b.duration.value), "duration", NotInteger) + Flag(b.duration.value > 0.0, "duration", BadDuration))
    + (if b.time.None? then Missing("time") else Flag(MatchesTimePattern(b.time.value), "time", BadTime))
    + (if b.eventId.None? then Missing("eventId") else Flag(fmt.isUuid(b.eventId.value), "eventId", BadEventId))
  }

  /** `createSessionSchema.parse`: accepted iff every rule holds; `mandatory` defaults to false. */
  function ParseCreateSession(b: SessionBody, fmt: Formats): (r: Result<SessionInput, Failure>)
    ensures r.Ok? <==> CreateSessionAccepted(b, fmt)
    ensures r.Ok? ==> r.value.mandatory == Some(b.mandatory.GetOr(false))
    ensures r.Ok? ==> KindName(r.value.kind) == b.kind.value && r.value.time == b.time.value
    ensures r.Ok? ==> r.value.name == b.name.value && r.value.eventId == b.eventId.value && r.value.duration == b.duration.value
    ensures r.Ok? ==> r.value.local == b.local.value && r.value.date == b.date.value
    ensures r.Err? ==> r.error.Invalid? && r.error.issues != []
  {
    var issues := CreateSessionIssues(b, fmt);
    if issues == [] then
      Ok(SessionInput(b.name.value, ParseKind(b.kind.value).value, b.local.value, b.date.value,
                      b.duration.value, b.time.value, Some(b.mandatory.GetOr(false)), b.eventId.value))
    else
      Err(Invalid(issues))
  }

  /** The rules of a session update: every field optional, any given one obeys the creation rule. */
  predicate UpdateSessionAccepted(b: SessionBody, fmt: Formats) {
    && (b.name.Some? ==> |b.name.value| >= 3)
    && (b.kind.Some? ==> b.kind.value in {"WORKSHOP", "TALK", "PANEL", "NETWORKING"})
    && (b.local.Some? ==> |b.local.value| >= 2)
    && (b.date.Some? ==> fmt.isDatetime(b.date.value))
    && (b.duration.Some? ==> DurationOk(b.duration.value))
    && (b.time.Some? ==> MatchesTimePattern(b.time.value))
  }

  function UpdateSessionIssues(b: SessionBody, fmt: Formats): seq<Issue> {
    (if b.name.Some? then Flag(|b.name.value| >= 3, "name", AtLeast3) else [])
    + (if b.kind.Some? then Flag(ParseKind(b.kind.value).Some?, "type", InvalidEnum) else [])
    + (if b.local.Some? then Flag(|b.local.value| >= 2, "local", AtLeast2) else [])
    + (if b.date.Some? then Flag(fmt.isDatetime(b.date.value), "date", InvalidDatetime) else [])
    + (if b.duration.Some?
       then Flag(IsInteger(b.duration.value), "duration", NotInteger) + Flag(b.duration.value > 0.0, "duration", NotPositive)
       else [])
    + (if b.time.Some? then Flag(MatchesTimePattern(b.time.value), "time", InvalidPattern) else [])
  }

  /** `updateSessionSchema.parse`: the schema has no `eventId`, so an update never moves a session to another event. */
  function ParseUpdateSession(b: SessionBody, fmt: Formats): (r: Result<SessionPatch, Failure>)
    ensures r.Ok? <==> UpdateSessionAccepted(b, fmt)
    ensures r.Ok? ==> r.value.eventId.None?
    ensures r.Ok? ==> r.value.name == b.name && r.value.time == b.time && r.value.mandatory == b.mandatory
    ensures r.Ok? ==> (r.value.kind.Some? <==> b.kind.Some?) && (r.value.kind.Some? ==> KindName(r.value.kind.value) == b.kind.value)
    ensures r.Ok? ==> r.value.local == b.local && r.value.date == b.date && r.value.duration == b.duration
    ensures r.Err? ==> r.error.Invalid? && r.error.issues != []
  {
    var issues := UpdateSessionIssues(b, fmt);
    if issues == [] then
      Ok(SessionPatch(b.name, if b.kind.Some? then ParseKind(b.kind.value) else None, b.local, b.date,
                      b.duration, b.time, b.mandatory, None))
    else
      Err(Invalid(issues))
  }

  /** A body the creation schema accepts is also a valid update. */
  lemma CreateImpliesUpdate(b: SessionBody, fmt: Formats)
    requires CreateSessionAccepted(b, fmt)
    ensures ParseUpdateSession(b, fmt).Ok?
  {
  }
}

/** The session service's schemas: looser creation rules, and an update that is the creation schema made partial. */
module SessionServiceSchemas {
  import opened Wrappers
  import opened Failures
  import opened Domain
  import opened SchemaChecks
  import opened SessionSchemas

  /** The creation rules, field by field: non-empty texts, a known type, a duration of at least 1, any text for date and time. */
  predicate CreateAccepted(b: SessionBody) {
    && b.name.Some? && |b.name.value| >= 1
    && b.kind.Some? && b.kind.value in {"WORKSHOP", "TALK", "PANEL", "NETWORKING"}
    && b.local.Some? && |b.local.value| >= 1
    && b.date.Some?
    && b.duration.Some? && b.duration.value >= 1.0
    && b.time.Some?
    && b.eventId.Some?
  }

  function CreateIssues(b: SessionBody): seq<Issue> {
    (if b.name.None? then Missing("name") else Flag(|b.name.value| >= 1, "name", AtLeast1))
    + (if b.kind.None? then Missing("type") else Flag(ParseKind(b.kind.value).Some?, "type", InvalidEnum))
    + (if b.local.None? then Missing("local") else Flag(|b.local.value| >= 1, "local", AtLeast1))
    + (if b.date.None? then Missing("date") else [])
    + (if b.duration.None? then Missing("duration") else Flag(b.duration.value >= 1.0, "duration", BelowOne))
    + (if b.time.None? then Missing("time") else [])
    + (if b.eventId.None? then Missing("eventId") else [])
  }

  /** `createSessionSchema.parse` of the session service: `mandatory` stays absent when not given. */
  function ParseCreate(b: SessionBody): (r: Result<SessionInput, Failure>)
    ensures r.Ok? <==> CreateAccepted(b)
    ensures r.Ok? ==> r.value.mandatory == b.mandatory && r.value.duration == b.duration.value
    ensures r.Ok? ==> r.value.time == b.time.value && r.value.date == b.date.value
    ensures r.Ok? ==> r.value.name == b.name.value && r.value.local == b.local.value && r.value.eventId == b.eventId.value
    ensures r.Ok? ==> KindName(r.value.kind) == b.kind.value
    ensures r.Err? ==> r.error.Invalid? && r.error.issues != []
  {
    var issues := CreateIssues(b);
    if issues == [] then
      Ok(SessionInput(b.name.value, ParseKind(b.kind.value).value, b.local.value, b.date.value,
                      b.duration.value, b.time.value, b.mandatory, b.eventId.value))
    else
      Err(Invalid(issues))
  }

  /** The partial schema: each given field obeys its creation rule, absent fields are fine. */
  predicate UpdateAccepted(b: SessionBody) {
    && (b.name.Some? ==> |b.name.value| >= 1)
    && (b.kind.Some? ==> b.kind.value in {"WORKSHOP", "TALK", "PANEL", "NETWORKING"})
    && (b.local.Some? ==> |b.local.value| >= 1)
    && (b.duration.Some? ==> b.duration.value >= 1.0)
  }

  function UpdateIssues(b: SessionBody): seq<Issue> {
    (if b.name.Some? then Flag(|b.name.value| >= 1, "name", AtLeast1) else [])
    + (if b.kind.Some? then Flag(ParseKind(b.kind.value).Some?, "type", InvalidEnum) else [])
    + (if b.local.Some? then Flag(|b.local.value| >= 1, "local", AtLeast1) else [])
    + (if b.duration.Some? then Flag(b.duration.value >= 1.0, "duration", BelowOne) else [])
  }

  /** `updateSessionSchema = createSessionSchema.partial()`: unlike the monolith, it may carry an `eventId`. */
  function ParseUpdate(b: SessionBody): (r: Result<SessionPatch, Failure>)
    ensures r.Ok? <==> UpdateAccepted(b)
    ensures r.Ok? ==> r.value.eventId == b.eventId && r.value.date == b.date && r.value.duration == b.duration
    ensures r.Ok? ==> r.value.name == b.name && r.value.local == b.local && r.value.time == b.time && r.value.mandatory == b.mandatory
    ensures r.Ok? ==> (r.value.kind.Some? <==> b.kind.Some?) && (r.value.kind.Some? ==> KindName(r.value.kind.value) == b.kind.value)
    ensures r.Err? ==> r.error.Invalid? && r.error.issues != []
  {
    var issues := UpdateIssues(b);
    if issues == [] then
      Ok(SessionPatch(b.name, if b.kind.Some? then ParseKind(b.kind.value) else None, b.local, b.date,
                      b.duration, b.time, b.mandatory, b.eventId))
    else
      Err(Invalid(issues))
  }

  /** The partial schema is the creation schema with every field made optional: on a complete body they agree. */
  lemma PartialAgreesOnCompleteBodies(b: SessionBody)
    requires b.name.Some? && b.kind.Some? && b.local.Some? && b.date.Some?
    requires b.duration.Some? && b.time.Some? && b.eventId.Some?
    ensures ParseCreate(b).Ok? <==> ParseUpdate(b).Ok?
  {
  }

  /** A duration of 1.5 passes the service's schema but not the monolith's, which demands an integer. */
  lemma FractionalDuration(fmt: Formats)
    ensures !DurationOk(1.5)
    ensures ParseUpdate(SessionBody(None, None, None, None, Some(1.5), None, None, None)).Ok?
    ensures ParseUpdateSession(SessionBody(None, None, None, None, Some(1.5), None, None, None), fmt).Err?
  {
    assert (1.5).Floor == 1;
  }
}
