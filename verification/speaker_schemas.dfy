/** The monolith's speaker schemas. */
module SpeakerSchemas {
  import opened Wrappers
  import opened Failures
  import opened SchemaChecks

  datatype SpeakerBody = SpeakerBody(name: Option<string>, avatar: Option<string>, description: Option<string>)
  datatype SpeakerInput = SpeakerInput(name: string, avatar: Option<string>, description: string)
  datatype SpeakerPatch = SpeakerPatch(name: Option<string>, avatar: Option<string>, description: Option<string>)

  const NameTooShort := "Name must be at least 3 characters!"
  const DescriptionTooShort := "Description must be at least 10 characters!"

  /** The creation rules: a name of 3 characters or more, a description of 10 or more, an optional avatar URL. */
  predicate CreateSpeakerAccepted(b: SpeakerBody, fmt: Formats) {
    && b.name.Some? && |b.name.value| >= 3
    && (b.avatar.Some? ==> fmt.isUrl(b.avatar.value))
    && b.description.Some? && |b.description.value| >= 10
  }

  function CreateSpeakerIssues(b: SpeakerBody, fmt: Formats): seq<Issue> {
    (if b.name.None? then Missing("name") else Flag(|b.name.value| >= 3, "name", NameTooShort))
    + (if b.avatar.Some? then Flag(fmt.isUrl(b.avatar.value), "avatar", InvalidUrl) else [])
    + (if b.description.None? then Missing("description")
       else Flag(|b.description.value| >= 10, "description", DescriptionTooShort))
  }

  /** `createSpeakerSchema.parse`. */
  function ParseCreateSpeaker(b: SpeakerBody, fmt: Formats): (r: Result<SpeakerInput, Failure>)
    ensures r.Ok? <==> CreateSpeakerAccepted(b, fmt)
    ensures r.Ok? ==> r.value == SpeakerInput(b.name.value, b.avatar, b.description.value)
    ensures r.Err? ==> r.error.Invalid? && r.error.issues != []
  {
    var issues := CreateSpeakerIssues(b, fmt);
    if issues == [] then Ok(SpeakerInput(b.name.value, b.avatar, b.description.value)) else Err(Invalid(issues))
  }

  /** The update rules: every field optional, but a given field obeys the creation bound. */
  predicate UpdateSpeakerAccepted(b: SpeakerBody, fmt: Formats) {
    && (b.name.Some? ==> |b.name.value| >= 3)
    && (b.avatar.Some? ==> fmt.isUrl(b.avatar.value))
    && (b.description.Some? ==> |b.description.value| >= 10)
  }

  function UpdateSpeakerIssues(b: SpeakerBody, fmt: Formats): seq<Issue> {
    (if b.name.Some? then Flag(|b.name.value| >= 3, "name", AtLeast3) else [])
    + (if b.avatar.Some? then Flag(fmt.isUrl(b.avatar.value), "avatar", InvalidUrl) else [])
    + (if b.description.Some? then Flag(|b.description.value| >= 10, "description", AtLeast10) else [])
  }

  /** `updateSpeakerSchema.parse`. */
  function ParseUpdateSpeaker(b: SpeakerBody, fmt: Formats): (r: Result<SpeakerPatch, Failure>)
    ensures r.Ok? <==> UpdateSpeakerAccepted(b, fmt)
    ensures r.Ok? ==> r.value == SpeakerPatch(b.name, b.avatar, b.description)
    ensures r.Err? ==> r.error.Invalid? && r.error.issues != []
  {
    var issues := UpdateSpeakerIssues(b, fmt);
    if issues == [] then Ok(SpeakerPatch(b.name, b.avatar, b.description)) else Err(Invalid(issues))
  }

  /** A short description is refused by an update exactly as by a creation. */
  lemma ShortDescriptionRefused(b: SpeakerBody, fmt: Formats)
    requires b.description.Some? && |b.description.value| < 10
    ensures ParseCreateSpeaker(b, fmt).Err? && ParseUpdateSpeaker(b, fmt).Err?
  {
  }
}

/** The speaker service's schemas: non-empty name and description, any avatar text; update is the partial form. */
module SpeakerServiceSchemas {
  import opened Wrappers
  import opened Failures
  import opened SchemaChecks
  import opened SpeakerSchemas

  predicate CreateAccepted(b: SpeakerBody) {
    b.name.Some? && |b.name.value| >= 1 && b.description.Some? && |b.description.value| >= 1
  }

  function CreateIssues(b: SpeakerBody): seq<Issue> {
    (if b.name.None? then Missing("name") else Flag(|b.name.value| >= 1, "name", AtLeast1))
    + (if b.description.None? then Missing("description") else Flag(|b.description.value| >= 1, "description", AtLeast1))
  }

  /** `createSpeakerSchema.parse` of the speaker service. */
  function ParseCreate(b: SpeakerBody): (r: Result<SpeakerInput, Failure>)
    ensures r.Ok? <==> CreateAccepted(b)
    ensures r.Ok? ==> r.value == SpeakerInput(b.name.value, b.avatar, b.description.value)
    ensures r.Err? ==> r.error.Invalid? && r.error.issues != []
  {
    var issues := CreateIssues(b);
    if issues == [] then Ok(SpeakerInput(b.name.value, b.avatar, b.description.value)) else Err(Invalid(issues))
  }

  predicate UpdateAccepted(b: SpeakerBody) {
    (b.name.Some? ==> |b.name.value| >= 1) && (b.description.Some? ==> |b.description.value| >= 1)
  }

  function UpdateIssues(b: SpeakerBody): seq<Issue> {
    (if b.name.Some? then Flag(|b.name.value| >= 1, "name", AtLeast1) else [])
    + (if b.description.Some? then Flag(|b.description.value| >= 1, "description", AtLeast1) else [])
  }

  /** `createSpeakerSchema.partial().parse`. */
  function ParseUpdate(b: SpeakerBody): (r: Result<SpeakerPatch, Failure>)
    ensures r.Ok? <==> UpdateAccepted(b)
    ensures r.Ok? ==> r.value == SpeakerPatch(b.name, b.avatar, b.description)
    ensures r.Err? ==> r.error.Invalid? && r.error.issues != []
  {
    var issues := UpdateIssues(b);
    if issues == [] then Ok(SpeakerPatch(b.name, b.avatar, b.description)) else Err(Invalid(issues))
  }

  /** On a body that has every required field, the partial schema accepts exactly what the full one does. */
  lemma PartialAgreesOnCompleteBodies(b: SpeakerBody)
    requires b.name.Some? && b.description.Some?
    ensures ParseCreate(b).Ok? <==> ParseUpdate(b).Ok?
  {
  }
}
