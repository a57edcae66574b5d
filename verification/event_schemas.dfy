/** The event service's schemas. */
module EventSchemas {
  import opened Wrappers
  import opened Failures
  import opened SchemaChecks

  datatype EventBody = EventBody(
    name: Option<string>, organization: Option<string>, date: Option<string>,
    description: Option<string>, logo: Option<string>)

  /** A validated creation body; `date` is still text, converted by the service. */
  datatype EventInput = EventInput(name: string, organization: string, date: string, description: string, logo: Option<string>)

  /** A validated update body: only the supplied fields. */
  datatype EventPatch = EventPatch(
    name: Option<string>, organization: Option<string>, date: Option<string>,
    description: Option<string>, logo: Option<string>)

  /** The creation rules: non-empty name, organization and description; any date text; optional logo. */
  predicate CreateEventAccepted(b: EventBody) {
    && b.name.Some? && |b.name.value| >= 1
    && b.organization.Some? && |b.organization.value| >= 1
    && b.date.Some?
    && b.description.Some? && |b.description.value| >= 1
  }

  function CreateEventIssues(b: EventBody): seq<Issue> {
    (if b.name.None? then Missing("name") else Flag(|b.name.value| >= 1, "name", AtLeast1))
    + (if b.organization.None? then Missing("organization") else Flag(|b.organization.value| >= 1, "organization", AtLeast1))
    + (if b.date.None? then Missing("date") else [])
    + (if b.description.None? then Missing("description") else Flag(|b.description.value| >= 1, "description", AtLeast1))
  }

  /** `createEventSchema.parse`. */
  function ParseCreateEvent(b: EventBody): (r: Result<EventInput, Failure>)
    ensures r.Ok? <==> CreateEventAccepted(b)
    ensures r.Ok? ==> r.value == EventInput(b.name.value, b.organization.value, b.date.value, b.description.value, b.logo)
    ensures r.Err? ==> r.error.Invalid? && r.error.issues != []
  {
    var issues := CreateEventIssues(b);
    if issues == [] then Ok(EventInput(b.name.value, b.organization.value, b.date.value, b.description.value, b.logo))
    else Err(Invalid(issues))
  }

  /** The update rules: every field optional; a given text field other than date and logo is non-empty. */
  predicate UpdateEventAccepted(b: EventBody) {
    && (b.name.Some? ==> |b.name.value| >= 1)
    && (b.organization.Some? ==> |b.organization.value| >= 1)
    && (b.description.Some? ==> |b.description.value| >= 1)
  }

  function UpdateEventIssues(b: EventBody): seq<Issue> {
    (if b.name.Some? then Flag(|b.name.value| >= 1, "name", AtLeast1) else [])
    + (if b.organization.Some? then Flag(|b.organization.value| >= 1, "organization", AtLeast1) else [])
    + (if b.description.Some? then Flag(|b.description.value| >= 1, "description", AtLeast1) else [])
  }

  /** `updateEventSchema.parse`. */
  function ParseUpdateEvent(b: EventBody): (r: Result<EventPatch, Failure>)
    ensures r.Ok? <==> UpdateEventAccepted(b)
    ensures r.Ok? ==> r.value == EventPatch(b.name, b.organization, b.date, b.description, b.logo)
    ensures r.Err? ==> r.error.Invalid? && r.error.issues != []
  {
    var issues := UpdateEventIssues(b);
    if issues == [] then Ok(EventPatch(b.name, b.organization, b.date, b.description, b.logo)) else Err(Invalid(issues))
  }

  /** A body the creation schema accepts is a valid update that supplies every field it carries. */
  lemma CreateImpliesUpdate(b: EventBody)
    ensures ParseCreateEvent(b).Ok? ==>
      ParseUpdateEvent(b) == Ok(EventPatch(Some(b.name.value), Some(b.organization.value), Some(b.date.value),
                                           Some(b.description.value), b.logo))
  {
  }

  /** The update schema refuses exactly the supplied empty texts, each reported on its own field. */
  lemma {:induction false} UpdateRefusesOnlyEmptyTexts(b: EventBody)
    ensures ParseUpdateEvent(b).Err? <==> b.name == Some("") || b.organization == Some("") || b.description == Some("")
    ensures b.name == Some("") ==> ParseUpdateEvent(b).Err? && Issue(["name"], AtLeast1) in ParseUpdateEvent(b).error.issues
  {
    if b.name == Some("") {
      assert UpdateEventIssues(b)[0] == Issue(["name"], AtLeast1);
    }
  }
}
