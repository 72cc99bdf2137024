/**
  The value types the controller and the two models exchange: projects, frames,
  the active-timer snapshot, the result of one run of the external tool, the
  decoded JSON the tool prints, and the signals the controller emits.
*/
module Data {

  /**
    A point in time as the tool prints it. The calendar meaning of the text is
    not modelled: an empty text reads as a null (invalid) QDateTime, any other
    text as the time it spells in ISO-8601.
  */
  datatype DateTime = NullTime | Iso(text: string)

  /** QDateTime::fromString(s, Qt::ISODate). */
  function ParseIsoDateTime(s: string): (t: DateTime)
    ensures t.NullTime? <==> s == ""
    ensures t.Iso? ==> t.text == s
  {
    if s == "" then NullTime else Iso(s)
  }

  /** toTimeSpec(Qt::OffsetFromUTC).toString(Qt::ISODate); a null time prints as the empty text. */
  function IsoText(t: DateTime): string
  {
    match t
    case NullTime => ""
    case Iso(text) => text
  }

  /**
    A project as the controller builds it: the segments of its hierarchical
    name, its id, the id of its parent (empty for a top-level project) and the
    backend's hourly-rate text.
  */
  datatype Project = Project(id: string, name: seq<string>, parentID: string, hourlyRate: string)

  /** Project(): the default-constructed, invalid project. */
  const NoProject: Project := Project("", [], "", "")

  /** Project::isValid: a project is valid when it has an id. */
  predicate IsValid(p: Project)
  {
    p.id != ""
  }

  /** One recorded or running time interval; a running frame has a null stop time. */
  datatype Frame = Frame(
    id: string,
    projectID: string,
    startTime: DateTime,
    stopTime: DateTime,
    lastUpdated: DateTime,
    notes: string,
    tags: seq<string>,
    archived: bool)

  /** The active-timer snapshot: whether a timer runs, for which project and since when. */
  datatype TomStatus = TomStatus(isValid: bool, project: Project, startTime: DateTime)

  /** TomStatus(): no timer is running. */
  const NoStatus: TomStatus := TomStatus(false, NoProject, NullTime)

  /** What one run of the external tool reports. */
  datatype CommandStatus = CommandStatus(stdoutContent: string, stderrContent: string, exitCode: int)

  /** CommandStatus::isSuccessful: the tool exited with code 0. */
  predicate IsSuccessful(st: CommandStatus)
  {
    st.exitCode == 0
  }

  /** A decoded JSON value (QJsonValue); a document that does not parse decodes to JNull. */
  datatype Json =
    | JNull
    | JBool(b: bool)
    | JNumber(n: int)
    | JString(s: string)
    | JArray(items: seq<Json>)
    | JObject(fields: map<string, Json>)

  /** QJsonObject::operator[]: a missing key reads as an undefined value, which converts like null. */
  function Member(obj: map<string, Json>, key: string): Json
  {
    if key in obj then obj[key] else JNull
  }

  /** QJsonValue::toString(): the text of a string value, else the empty text. */
  function StringValue(v: Json): string
  {
    if v.JString? then v.s else ""
  }

  /** QJsonValue::toBool(default): the value of a boolean, else the default. */
  function BoolValue(v: Json, default: bool): bool
  {
    if v.JBool? then v.b else default
  }

  /** QJsonValue::toArray(): the items of an array, else no items. */
  function ArrayValue(v: Json): seq<Json>
  {
    if v.JArray? then v.items else []
  }

  /** QJsonDocument::object(): the members of an object document, else none. */
  function ObjectValue(doc: Json): map<string, Json>
  {
    if doc.JObject? then doc.fields else map[]
  }

  /** The signals TomControl emits, in the order they are emitted. */
  datatype Event =
    | ProjectStarted(project: Project)
    | ProjectStopped(project: Project)
    | ProjectCancelled(project: Project)
    | ProjectUpdated(project: Project)
    | ProjectCreated(project: Project)
    | ProjectRemoved(project: Project)
    | StatusChanged
    | FramesUpdated(frameIDs: seq<string>, projectID: string)
    | FramesMoved(frameIDs: seq<string>, fromProjectID: string, toProjectID: string)
    | FramesRemoved(frameIDs: seq<string>, projectID: string)
    | FramesArchived(projectIDs: seq<string>)
    | DataResetNeeded

  // ---- item-model roles and header values ----

  /** Qt::DisplayRole. */
  const DisplayRole := 0

  /** Qt::TextAlignmentRole. */
  const TextAlignmentRole := 7

  /** Qt::AlignLeft (also Qt::AlignLeading) and Qt::AlignRight (also Qt::AlignTrailing), in a left-to-right layout. */
  const AlignLeft := 0x1
  const AlignRight := 0x2

  /** What a model's headerData returns: an empty QVariant, a text, or alignment flags. */
  datatype HeaderValue = NoValue | Caption(text: string) | Alignment(flags: int)
}
