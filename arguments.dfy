/**
  The argument lists TomControl passes to the tool. Every builder is a pure
  function of the operation's parameters; for the two edit commands a reader
  recovers the request from the list, which shows that the list carries every
  requested change and nothing else.
*/
module Arguments {
  import opened Wrappers
  import opened Text
  import opened Data

  /** The text "true" or "false". */
  function BoolText(b: bool): string
  {
    if b then "true" else "false"
  }

  /** QString("<name>=%1").arg(b ? "true" : "false"). */
  function BoolFlag(name: string, b: bool): string
  {
    name + "=" + BoolText(b)
  }

  /** The pair `flag value` when a value is given, else nothing. */
  function OptionArgs(flag: string, v: Option<string>): (args: seq<string>)
    ensures v.None? ==> args == []
    ensures v.Some? ==> args == [flag, v.value]
  {
    if v.Some? then [flag, v.value] else []
  }

  // ---- fixed commands ----

  /** `projects` with the name delimiter and the four listed fields; `--recent N` only for a positive `max`. */
  function ProjectsArgs(max: int): (args: seq<string>)
    ensures |args| >= 4
    ensures args[..4] == ["projects", "--name-delimiter=||", "-f", "fullName,id,parentID,hourlyRate"]
    ensures max > 0 ==> args[4..] == ["--recent", IntToString(max)]
    ensures max <= 0 ==> |args| == 4
  {
    ["projects", "--name-delimiter=||", "-f", "fullName,id,parentID,hourlyRate"]
      + (if max > 0 then ["--recent", IntToString(max)] else [])
  }

  const StatusArgs: seq<string> :=
    ["status", "--name-delimiter=||", "-f", "id,projectFullName,projectID,projectParentID,startTime"]

  /** `start <projectID>`. */
  function StartArgs(projectID: string): (args: seq<string>)
    ensures |args| == 2 && args[0] == "start" && args[1] == projectID
  {
    ["start", projectID]
  }

  const CancelArgs: seq<string> := ["cancel"]
  const StopArgs: seq<string> := ["stop"]

  /** `rename tag <id> <newName>`. */
  function RenameTagArgs(id: string, newName: string): (args: seq<string>)
    ensures |args| == 4 && args[..2] == ["rename", "tag"] && args[2] == id && args[3] == newName
  {
    ["rename", "tag", id, newName]
  }

  /** `remove project <id>`. */
  function RemoveProjectArgs(id: string): (args: seq<string>)
    ensures |args| == 3 && args[..2] == ["remove", "project"] && args[2] == id
  {
    ["remove", "project", id]
  }

  /** `remove frame <ids...>`. */
  function RemoveFrameArgs(ids: seq<string>): (args: seq<string>)
    ensures |args| >= 2 && args[..2] == ["remove", "frame"] && args[2..] == ids
  {
    ["remove", "frame"] + ids
  }

  /** The three import formats the controller offers. */
  datatype ImportKind = MacTimeTracker | Fanurio | Watson

  function ImportName(kind: ImportKind): string
  {
    match kind
    case MacTimeTracker => "macTimeTracker"
    case Fanurio => "fanurio"
    case Watson => "watson"
  }

  /** `import <format> <filename>`. */
  function ImportArgs(kind: ImportKind, filename: string): (args: seq<string>)
    ensures |args| == 3 && args[0] == "import" && args[2] == filename
    ensures args[1] == (match kind case MacTimeTracker => "macTimeTracker" case Fanurio => "fanurio" case Watson => "watson")
  {
    ["import", ImportName(kind), filename]
  }

  const ResetAllArgs: seq<string> := ["remove", "all", "all"]

  /** `create project --output json <name>`, then `-p <parent>` after the name when a parent is given. */
  function CreateProjectArgs(parentID: string, name: string): (args: seq<string>)
    ensures |args| >= 5
    ensures args[..5] == ["create", "project", "--output", "json", name]
    ensures parentID == "" <==> |args| == 5
    ensures parentID != "" ==> args[5..] == ["-p", parentID]
  {
    ["create", "project", "--output", "json", name] + (if parentID != "" then ["-p", parentID] else [])
  }

  /** `frames -o json -p <id> -f <fields> [--subprojects] --archived=<b>`. */
  function FramesArgs(projectID: string, includeSubprojects: bool, includeArchived: bool): (args: seq<string>)
    ensures |args| >= 8
    ensures args[..6] == ["frames", "-o", "json", "-p", projectID, "-f"]
    ensures args[6] == "id,projectID,startTime,stopTime,lastUpdated,notes"
    ensures args[|args| - 1] == BoolFlag("--archived", includeArchived)
    ensures includeSubprojects <==> |args| == 9
    ensures includeSubprojects ==> args[7] == "--subprojects"
  {
    ["frames", "-o", "json", "-p", projectID, "-f", "id,projectID,startTime,stopTime,lastUpdated,notes"]
      + (if includeSubprojects then ["--subprojects"] else [])
      + [BoolFlag("--archived", includeArchived)]
  }

  /** `status projects -f <columns> [--include-active] [--show-overall <id>] --archived=<b>`. */
  function ProjectsStatusArgs(columnList: string, overallID: string, includeActive: bool, includeArchived: bool): (args: seq<string>)
    ensures |args| >= 5
    ensures args[..4] == ["status", "projects", "-f", columnList]
    ensures args[|args| - 1] == BoolFlag("--archived", includeArchived)
    ensures |args| == 5 + (if includeActive then 1 else 0) + (if overallID != "" then 2 else 0)
    ensures includeActive ==> args[4] == "--include-active"
    ensures overallID != "" ==> args[|args| - 3..|args| - 1] == ["--show-overall", overallID]
  {
    ["status", "projects", "-f", columnList]
      + (if includeActive then ["--include-active"] else [])
      + (if overallID != "" then ["--show-overall", overallID] else [])
      + [BoolFlag("--archived", includeArchived)]
  }

  /** `frames archive --project <id> [--include-subprojects]`. */
  function ArchiveFramesArgs(projectID: string, includeSubprojects: bool): (args: seq<string>)
    ensures |args| >= 4
    ensures args[..4] == ["frames", "archive", "--project", projectID]
    ensures includeSubprojects <==> |args| == 5
    ensures includeSubprojects ==> args[4] == "--include-subprojects"
  {
    ["frames", "archive", "--project", projectID] + (if includeSubprojects then ["--include-subprojects"] else [])
  }

  // ---- edit frame ----

  /**
    The changes one `edit frame` requests; each of the source's `updateX` flags
    together with its value is one optional field.
  */
  datatype FrameEdit = FrameEdit(
    start: Option<DateTime>,
    end: Option<DateTime>,
    notes: Option<string>,
    project: Option<string>,
    archived: Option<bool>)

  /** The request updateFrame's flag-and-value pairs make: a value exactly where its flag is set. */
  function FrameEditOf(updateStart: bool, start: DateTime, updateEnd: bool, end: DateTime,
                       updateNotes: bool, notes: string, updateProject: bool, projectID: string,
                       updateArchived: bool, archived: bool): (e: FrameEdit)
    ensures e.start.Some? <==> updateStart
    ensures e.end.Some? <==> updateEnd
    ensures e.notes.Some? <==> updateNotes
    ensures e.project.Some? <==> updateProject
    ensures e.archived.Some? <==> updateArchived
    ensures updateStart ==> e.start == Some(start)
    ensures updateEnd ==> e.end == Some(end)
    ensures updateNotes ==> e.notes == Some(notes)
    ensures updateProject ==> e.project == Some(projectID)
    ensures updateArchived ==> e.archived == Some(archived)
  {
    FrameEdit(
      if updateStart then Some(start) else None,
      if updateEnd then Some(end) else None,
      if updateNotes then Some(notes) else None,
      if updateProject then Some(projectID) else None,
      if updateArchived then Some(archived) else None)
  }

  function TimeArg(t: Option<DateTime>): Option<string>
  {
    if t.Some? then Some(IsoText(t.value)) else None
  }

  /** `edit frame [--start s] [--end e] [--notes n] [--project p] [--archived=<b>] <ids...>`, in that order. */
  function EditFrameArgs(ids: seq<string>, e: FrameEdit): (args: seq<string>)
    ensures |args| >= 2 + |ids| && args[..2] == ["edit", "frame"] && args[|args| - |ids|..] == ids
  {
    ["edit", "frame"] + StartTail(ids, e)
  }

  /** Takes `flag value` off the front of `args` when it starts with `flag`. */
  function TakeOption(args: seq<string>, flag: string): (r: (Option<string>, seq<string>))
    ensures r.0.None? ==> r.1 == args
    ensures r.0.Some? ==> |args| >= 2 && args[0] == flag && r.0.value == args[1] && r.1 == args[2..]
  {
    if |args| >= 2 && args[0] == flag then (Some(args[1]), args[2..]) else (None, args)
  }

  /** Takes an `--archived=true` or `--archived=false` token off the front of `args`. */
  function TakeArchived(args: seq<string>): (Option<bool>, seq<string>)
  {
    if |args| >= 1 && args[0] == BoolFlag("--archived", true) then (Some(true), args[1..])
    else if |args| >= 1 && args[0] == BoolFlag("--archived", false) then (Some(false), args[1..])
    else (None, args)
  }

  function TimeOf(t: Option<string>): Option<DateTime>
  {
    if t.Some? then Some(ParseIsoDateTime(t.value)) else None
  }

  /** Reads an `edit frame` list back into the frame ids and the requested changes. */
  function ReadEditFrameArgs(args: seq<string>): Option<(seq<string>, FrameEdit)>
  {
    if |args| < 2 || args[..2] != ["edit", "frame"] then None
    else
      var (start, r1) := TakeOption(args[2..], "--start");
      var (end, r2) := TakeOption(r1, "--end");
      var (notes, r3) := TakeOption(r2, "--notes");
      var (project, r4) := TakeOption(r3, "--project");
      var (archived, ids) := TakeArchived(r4);
      Some((ids, FrameEdit(TimeOf(start), TimeOf(end), notes, project, archived)))
  }

  /** A token that is not an option: it does not start with "--". */
  predicate Plain(s: string)
  {
    !(|s| >= 2 && s[..2] == "--")
  }

  /** A list whose tokens are all plain. */
  predicate AllPlain(ids: seq<string>)
  {
    forall k :: 0 <= k < |ids| ==> Plain(ids[k])
  }

  /** A time the tool can be handed: a null time, or one with text (ParseIsoDateTime never yields empty text). */
  predicate Sendable(t: Option<DateTime>)
  {
    t.Some? && t.value.Iso? ==> t.value.text != ""
  }

  lemma TimeRoundTrip(t: Option<DateTime>)
    requires Sendable(t)
    ensures TimeOf(TimeArg(t)) == t
  {
  }

  /** Taking `flag` off a list that starts with it gives its value; off a list that starts otherwise, nothing. */
  lemma TakeOptionArgs(flag: string, v: Option<string>, rest: seq<string>)
    requires |flag| >= 2 && flag[..2] == "--"
    requires rest != [] ==> rest[0] != flag
    ensures TakeOption(OptionArgs(flag, v) + rest, flag) == (v, rest)
  {
    if v.Some? {
      assert (OptionArgs(flag, v) + rest)[2..] == rest;
    } else {
      assert OptionArgs(flag, v) + rest == rest;
    }
  }

  /** The tails of an `edit frame` list: what follows "edit frame" (StartTail), then what follows each option in turn. */
  function ArchivedTail(ids: seq<string>, e: FrameEdit): seq<string>
  {
    (if e.archived.Some? then [BoolFlag("--archived", e.archived.value)] else []) + ids
  }

  function ProjectTail(ids: seq<string>, e: FrameEdit): seq<string>
  {
    OptionArgs("--project", e.project) + ArchivedTail(ids, e)
  }

  function NotesTail(ids: seq<string>, e: FrameEdit): seq<string>
  {
    OptionArgs("--notes", e.notes) + ProjectTail(ids, e)
  }

  function EndTail(ids: seq<string>, e: FrameEdit): seq<string>
  {
    OptionArgs("--end", TimeArg(e.end)) + NotesTail(ids, e)
  }

  function StartTail(ids: seq<string>, e: FrameEdit): seq<string>
  {
    OptionArgs("--start", TimeArg(e.start)) + EndTail(ids, e)
  }

  /** `t` is empty or starts with something other than `flag`. */
  predicate HeadIsNot(t: seq<string>, flag: string)
  {
    t != [] ==> t[0] != flag
  }

  lemma PlainIsNotFlag(s: string, flag: string)
    requires Plain(s) && |flag| >= 2 && flag[..2] == "--"
    ensures s != flag
  {
  }

  lemma ArchivedTailReads(ids: seq<string>, e: FrameEdit)
    requires AllPlain(ids)
    ensures TakeArchived(ArchivedTail(ids, e)) == (e.archived, ids)
    ensures HeadIsNot(ArchivedTail(ids, e), "--project") && HeadIsNot(ArchivedTail(ids, e), "--notes")
    ensures HeadIsNot(ArchivedTail(ids, e), "--end") && HeadIsNot(ArchivedTail(ids, e), "--start")
  {
    var t := ArchivedTail(ids, e);
    var yes := BoolFlag("--archived", true);
    var no := BoolFlag("--archived", false);
    if e.archived.Some? {
      var tok := BoolFlag("--archived", e.archived.value);
      assert t[0] == tok && t[1..] == ids;
      assert yes != no by {
        assert yes[11] != no[11];
      }
      assert tok[2] == 'a';
    } else {
      assert t == ids;
      if ids != [] {
        assert Plain(ids[0]);
        PlainIsNotFlag(ids[0], yes);
        PlainIsNotFlag(ids[0], no);
        PlainIsNotFlag(ids[0], "--project");
        PlainIsNotFlag(ids[0], "--notes");
        PlainIsNotFlag(ids[0], "--end");
        PlainIsNotFlag(ids[0], "--start");
      }
    }
  }

  lemma ProjectTailHead(ids: seq<string>, e: FrameEdit)
    requires AllPlain(ids)
    ensures HeadIsNot(ProjectTail(ids, e), "--notes") && HeadIsNot(ProjectTail(ids, e), "--end")
    ensures HeadIsNot(ProjectTail(ids, e), "--start")
  {
    ArchivedTailReads(ids, e);
    if e.project.Some? {
      assert ProjectTail(ids, e)[0] == "--project";
    } else {
      assert ProjectTail(ids, e) == ArchivedTail(ids, e);
    }
  }

  lemma NotesTailHead(ids: seq<string>, e: FrameEdit)
    requires AllPlain(ids)
    ensures HeadIsNot(NotesTail(ids, e), "--end") && HeadIsNot(NotesTail(ids, e), "--start")
  {
    ProjectTailHead(ids, e);
    if e.notes.Some? {
      assert NotesTail(ids, e)[0] == "--notes";
    } else {
      assert NotesTail(ids, e) == ProjectTail(ids, e);
    }
  }

  lemma EndTailHead(ids: seq<string>, e: FrameEdit)
    requires AllPlain(ids)
    ensures HeadIsNot(EndTail(ids, e), "--start")
  {
    NotesTailHead(ids, e);
    if e.end.Some? {
      assert EndTail(ids, e)[0] == "--end";
    } else {
      assert EndTail(ids, e) == NotesTail(ids, e);
    }
  }

  /** An `edit frame` list reads back as the frame ids and the changes that were requested. */
  lemma EditFrameRoundTrip(ids: seq<string>, e: FrameEdit)
    requires AllPlain(ids) && Sendable(e.start) && Sendable(e.end)
    ensures ReadEditFrameArgs(EditFrameArgs(ids, e)) == Some((ids, e))
  {
    var args := EditFrameArgs(ids, e);
    assert args[..2] == ["edit", "frame"];
    assert args[2..] == StartTail(ids, e);
    ArchivedTailReads(ids, e);
    ProjectTailHead(ids, e);
    NotesTailHead(ids, e);
    EndTailHead(ids, e);
    TakeOptionArgs("--start", TimeArg(e.start), EndTail(ids, e));
    assert TakeOption(args[2..], "--start") == (TimeArg(e.start), EndTail(ids, e));
    TakeOptionArgs("--end", TimeArg(e.end), NotesTail(ids, e));
    assert TakeOption(EndTail(ids, e), "--end") == (TimeArg(e.end), NotesTail(ids, e));
    TakeOptionArgs("--notes", e.notes, ProjectTail(ids, e));
    assert TakeOption(NotesTail(ids, e), "--notes") == (e.notes, ProjectTail(ids, e));
    TakeOptionArgs("--project", e.project, ArchivedTail(ids, e));
    assert TakeOption(ProjectTail(ids, e), "--project") == (e.project, ArchivedTail(ids, e));
    TimeRoundTrip(e.start);
    TimeRoundTrip(e.end);
  }

  // ---- edit project ----

  /** The changes one `edit project` requests. */
  datatype ProjectEdit = ProjectEdit(name: Option<string>, parent: Option<string>, hourlyRate: Option<string>)

  /** The request updateProjects' flag-and-value pairs make: a value exactly where its flag is set. */
  function ProjectEditOf(updateName: bool, name: string, updateParent: bool, parentID: string,
                         updateHourlyRate: bool, hourlyRate: string): (e: ProjectEdit)
    ensures e.name.Some? <==> updateName
    ensures e.parent.Some? <==> updateParent
    ensures e.hourlyRate.Some? <==> updateHourlyRate
    ensures updateName ==> e.name == Some(name)
    ensures updateParent ==> e.parent == Some(parentID)
    ensures updateHourlyRate ==> e.hourlyRate == Some(hourlyRate)
  {
    ProjectEdit(
      if updateName then Some(name) else None,
      if updateParent then Some(parentID) else None,
      if updateHourlyRate then Some(hourlyRate) else None)
  }

  /** `edit project [--name n] [--parent p] [--hourly-rate r] <ids...>`, in that order. */
  function EditProjectArgs(ids: seq<string>, e: ProjectEdit): (args: seq<string>)
    ensures |args| >= 2 + |ids| && args[..2] == ["edit", "project"] && args[|args| - |ids|..] == ids
  {
    ["edit", "project"]
      + OptionArgs("--name", e.name)
      + OptionArgs("--parent", e.parent)
      + OptionArgs("--hourly-rate", e.hourlyRate)
      + ids
  }

  /** Reads an `edit project` list back into the project ids and the requested changes. */
  function ReadEditProjectArgs(args: seq<string>): Option<(seq<string>, ProjectEdit)>
  {
    if |args| < 2 || args[..2] != ["edit", "project"] then None
    else
      var (name, r1) := TakeOption(args[2..], "--name");
      var (parent, r2) := TakeOption(r1, "--parent");
      var (rate, ids) := TakeOption(r2, "--hourly-rate");
      Some((ids, ProjectEdit(name, parent, rate)))
  }

  /** An `edit project` list reads back as the project ids and the changes that were requested. */
  lemma EditProjectRoundTrip(ids: seq<string>, e: ProjectEdit)
    requires AllPlain(ids)
    ensures ReadEditProjectArgs(EditProjectArgs(ids, e)) == Some((ids, e))
  {
    var t2 := OptionArgs("--hourly-rate", e.hourlyRate) + ids;
    var t1 := OptionArgs("--parent", e.parent) + t2;
    var t0 := OptionArgs("--name", e.name) + t1;
    var args := EditProjectArgs(ids, e);
    assert args == ["edit", "project"] + t0;
    assert args[..2] == ["edit", "project"];
    assert args[2..] == t0;
    if ids != [] {
      PlainIsNotFlag(ids[0], "--hourly-rate");
      PlainIsNotFlag(ids[0], "--parent");
      PlainIsNotFlag(ids[0], "--name");
    }
    TakeOptionArgs("--hourly-rate", e.hourlyRate, ids);
    assert t2 != [] ==> t2[0] != "--parent" by {
      if e.hourlyRate.Some? {
        assert t2[0] == "--hourly-rate";
        assert t2[0][2] != "--parent"[2];
      } else if ids != [] {
        assert t2[0] == ids[0];
      }
    }
    TakeOptionArgs("--parent", e.parent, t2);
    assert t1 != [] ==> t1[0] != "--name" by {
      if e.parent.Some? {
        assert t1[0] == "--parent";
      } else if e.hourlyRate.Some? {
        assert t1[0] == "--hourly-rate";
      } else if ids != [] {
        assert t1[0] == ids[0];
      }
    }
    TakeOptionArgs("--name", e.name, t1);
  }

  // ---- report ----

  /** TimeRoundingMode. */
  datatype RoundingMode = NONE | NEAREST | UP | DOWN

  /** A QDate filter bound: unset, or the ISO text of the day's start in local time. */
  datatype Date = NoDate | Day(startText: string)

  /** The parameters of htmlReport. */
  datatype ReportOptions = ReportOptions(
    outputFile: string,
    projectIDs: seq<string>,
    includeSubprojects: bool,
    start: Date, end: Date,
    rounding: RoundingMode, roundingMinutes: int,
    splits: seq<string>,
    templateID: string,
    matrixTables: bool, showEmpty: bool, showSummary: bool, includeArchived: bool,
    title: string, description: string,
    showSales: bool)

  /** `--name=value` only when the value is non-empty. */
  function NonEmptyArg(name: string, value: string): seq<string>
  {
    if value != "" then [name + value] else []
  }

  function DateArg(name: string, d: Date): seq<string>
  {
    if d.Day? then [name + d.startText] else []
  }

  /** One `--project=<id>` per id, in order. */
  function ProjectArgs(ids: seq<string>): (args: seq<string>)
    ensures |args| == |ids|
    ensures forall k :: 0 <= k < |ids| ==> args[k] == "--project=" + ids[k]
  {
    if ids == [] then [] else ["--project=" + ids[0]] + ProjectArgs(ids[1..])
  }

  /** `--round-frames nearest|up` for those two modes, nothing for NONE and DOWN. */
  function RoundModeArgs(mode: RoundingMode): seq<string>
  {
    match mode
    case NONE => []
    case NEAREST => ["--round-frames", "nearest"]
    case UP => ["--round-frames", "up"]
    case DOWN => []
  }

  /** The rounding step: "0m" when not rounding, else the minutes followed by 'm'. */
  function RoundToText(mode: RoundingMode, minutes: int): string
  {
    if mode == NONE then "0m" else IntToString(minutes) + "m"
  }

  /** The options of a report that come before the rounding options, in the order they are added. */
  function ReportOptionArgs(o: ReportOptions): seq<string>
  {
    NonEmptyArg("--output-file=", o.outputFile)
      + ["--split=" + Join(o.splits, ",")]
      + ProjectArgs(o.projectIDs)
      + [BoolFlag("--subprojects", o.includeSubprojects)]
      + NonEmptyArg("--template=", o.templateID)
      + DateArg("--from=", o.start)
      + DateArg("--to=", o.end)
      + [BoolFlag("--matrix-tables", o.matrixTables),
         BoolFlag("--show-empty", o.showEmpty),
         BoolFlag("--show-summary", o.showSummary),
         BoolFlag("--include-archived", o.includeArchived),
         BoolFlag("--show-sales", o.showSales)]
      + NonEmptyArg("--title=", o.title)
      + NonEmptyArg("--description=", o.description)
  }

  function ReportHead(o: ReportOptions): seq<string>
  {
    ["report"] + ReportOptionArgs(o)
  }

  /** The full `report` argument list. */
  function ReportArgs(o: ReportOptions): (args: seq<string>)
    ensures |args| >= 3 && args[0] == "report"
    ensures args[|args| - 2..] == ["--round-frames-to", RoundToText(o.rounding, o.roundingMinutes)]
  {
    ReportHead(o) + RoundModeArgs(o.rounding) + ["--round-frames-to", RoundToText(o.rounding, o.roundingMinutes)]
  }

  /** A token of the shape `--name=...`: it has an '=' after the dashes. */
  predicate Assignment(s: string)
  {
    exists k :: 2 <= k < |s| && s[k] == '='
  }

  /** Every token of `ts` is an assignment. */
  predicate Assignments(ts: seq<string>)
  {
    forall k :: 0 <= k < |ts| ==> Assignment(ts[k])
  }

  lemma AssignmentsAppend(a: seq<string>, b: seq<string>)
    requires Assignments(a) && Assignments(b)
    ensures Assignments(a + b)
  {
    forall k | 0 <= k < |a + b| ensures Assignment((a + b)[k]) {
      if k < |a| {
        assert (a + b)[k] == a[k];
      } else {
        assert (a + b)[k] == b[k - |a|];
      }
    }
  }

  lemma AssignmentOf(name: string, value: string)
    requires |name| >= 3 && name[|name| - 1] == '='
    ensures Assignment(name + value)
  {
    assert (name + value)[|name| - 1] == '=';
  }

  lemma NonEmptyArgAssign(name: string, value: string)
    requires |name| >= 3 && name[|name| - 1] == '='
    ensures Assignments(NonEmptyArg(name, value))
  {
    AssignmentOf(name, value);
  }

  lemma DateArgAssign(name: string, d: Date)
    requires |name| >= 3 && name[|name| - 1] == '='
    ensures Assignments(DateArg(name, d))
  {
    if d.Day? {
      AssignmentOf(name, d.startText);
    }
  }

  lemma ProjectArgsAssign(ids: seq<string>)
    ensures Assignments(ProjectArgs(ids))
  {
    forall k | 0 <= k < |ids| ensures Assignment(ProjectArgs(ids)[k]) {
      AssignmentOf("--project=", ids[k]);
    }
  }

  lemma BoolFlagAssign(name: string, b: bool)
    requires |name| >= 2
    ensures Assignment(BoolFlag(name, b))
  {
    assert BoolFlag(name, b) == (name + "=") + BoolText(b);
    AssignmentOf(name + "=", BoolText(b));
  }

  /** Every option before the rounding options is an assignment. */
  lemma ReportOptionsAssign(o: ReportOptions)
    ensures Assignments(ReportOptionArgs(o))
  {
    var a1 := NonEmptyArg("--output-file=", o.outputFile);
    var a2 := ["--split=" + Join(o.splits, ",")];
    var a3 := ProjectArgs(o.projectIDs);
    var a4 := [BoolFlag("--subprojects", o.includeSubprojects)];
    var a5 := NonEmptyArg("--template=", o.templateID);
    var a6 := DateArg("--from=", o.start);
    var a7 := DateArg("--to=", o.end);
    var a8 := [BoolFlag("--matrix-tables", o.matrixTables),
               BoolFlag("--show-empty", o.showEmpty),
               BoolFlag("--show-summary", o.showSummary),
               BoolFlag("--include-archived", o.includeArchived),
               BoolFlag("--show-sales", o.showSales)];
    var a9 := NonEmptyArg("--title=", o.title);
    var a10 := NonEmptyArg("--description=", o.description);
    NonEmptyArgAssign("--output-file=", o.outputFile);
    AssignmentOf("--split=", Join(o.splits, ","));
    ProjectArgsAssign(o.projectIDs);
    BoolFlagAssign("--subprojects", o.includeSubprojects);
    NonEmptyArgAssign("--template=", o.templateID);
    DateArgAssign("--from=", o.start);
    DateArgAssign("--to=", o.end);
    BoolFlagAssign("--matrix-tables", o.matrixTables);
    BoolFlagAssign("--show-empty", o.showEmpty);
    BoolFlagAssign("--show-summary", o.showSummary);
    BoolFlagAssign("--include-archived", o.includeArchived);
    BoolFlagAssign("--show-sales", o.showSales);
    NonEmptyArgAssign("--title=", o.title);
    NonEmptyArgAssign("--description=", o.description);
    AssignmentsAppend(a1, a2);
    AssignmentsAppend(a1 + a2, a3);
    AssignmentsAppend(a1 + a2 + a3, a4);
    AssignmentsAppend(a1 + a2 + a3 + a4, a5);
    AssignmentsAppend(a1 + a2 + a3 + a4 + a5, a6);
    AssignmentsAppend(a1 + a2 + a3 + a4 + a5 + a6, a7);
    AssignmentsAppend(a1 + a2 + a3 + a4 + a5 + a6 + a7, a8);
    AssignmentsAppend(a1 + a2 + a3 + a4 + a5 + a6 + a7 + a8, a9);
    AssignmentsAppend(a1 + a2 + a3 + a4 + a5 + a6 + a7 + a8 + a9, a10);
  }

  lemma NotAssignment(s: string)
    requires forall k :: 0 <= k < |s| ==> s[k] != '='
    ensures !Assignment(s)
  {
  }

  /**
    A report asks the tool to round frames exactly for the modes NEAREST and UP;
    DOWN passes no rounding mode, like NONE, but still passes its minutes.
  */
  lemma ReportRoundsIff(o: ReportOptions)
    ensures "--round-frames" in ReportArgs(o) <==> o.rounding == NEAREST || o.rounding == UP
  {
    var head := ReportHead(o);
    var tail := ["--round-frames-to", RoundToText(o.rounding, o.roundingMinutes)];
    var args := ReportArgs(o);
    assert args == head + RoundModeArgs(o.rounding) + tail;
    if o.rounding == NEAREST || o.rounding == UP {
      assert args[|head|] == "--round-frames";
    } else {
      ReportOptionsAssign(o);
      NotAssignment("--round-frames");
      assert RoundModeArgs(o.rounding) == [];
      assert args == head + tail;
      forall k | 0 <= k < |args| ensures args[k] != "--round-frames" {
        if k == 0 {
          assert args[0] == "report";
        } else if k < |head| {
          assert args[k] == ReportOptionArgs(o)[k - 1];
        } else if k == |head| {
          assert args[k] == "--round-frames-to";
          assert |"--round-frames-to"| != |"--round-frames"|;
        } else {
          var text := RoundToText(o.rounding, o.roundingMinutes);
          assert args[k] == text;
          assert text[|text| - 1] == 'm';
        }
      }
    }
  }

  // ---- reading a report list back ----

  /** The word that follows `--round-frames` for the two modes that pass one. */
  function RoundModeWord(mode: RoundingMode): (w: Option<string>)
    ensures w.Some? <==> mode == NEAREST || mode == UP
  {
    match mode
    case NEAREST => Some("nearest")
    case UP => Some("up")
    case _ => None
  }

  lemma RoundModeArgsOption(mode: RoundingMode)
    ensures RoundModeArgs(mode) == OptionArgs("--round-frames", RoundModeWord(mode))
  {
  }

  /** What a `report` list asks of the tool, option by option. */
  datatype ReportRequest = ReportRequest(
    outputFile: string, split: string, projectIDs: seq<string>, includeSubprojects: bool,
    templateID: string, start: Date, end: Date,
    matrixTables: bool, showEmpty: bool, showSummary: bool, includeArchived: bool, showSales: bool,
    title: string, description: string,
    roundFrames: Option<string>, roundTo: string)

  /** The request htmlReport's parameters make: every option with its value, the split kinds joined by commas. */
  function RequestOf(o: ReportOptions): ReportRequest
  {
    ReportRequest(o.outputFile, Join(o.splits, ","), o.projectIDs, o.includeSubprojects,
      o.templateID, o.start, o.end,
      o.matrixTables, o.showEmpty, o.showSummary, o.includeArchived, o.showSales,
      o.title, o.description,
      RoundModeWord(o.rounding), RoundToText(o.rounding, o.roundingMinutes))
  }

  /** `s` starts with `p`. */
  predicate StartsWith(s: string, p: string)
  {
    |s| >= |p| && s[..|p|] == p
  }

  /** Takes a `<p><value>` token off the front of `args`. */
  function TakePrefixed(args: seq<string>, p: string): (Option<string>, seq<string>)
  {
    if args != [] && StartsWith(args[0], p) then (Some(args[0][|p|..]), args[1..]) else (None, args)
  }

  /** An optional text option: its value, or the empty text when it is absent. */
  function TakeText(args: seq<string>, p: string): (string, seq<string>)
  {
    var (v, rest) := TakePrefixed(args, p);
    (if v.Some? then v.value else "", rest)
  }

  /** An optional date option. */
  function TakeDate(args: seq<string>, p: string): (Date, seq<string>)
  {
    var (v, rest) := TakePrefixed(args, p);
    (if v.Some? then Day(v.value) else NoDate, rest)
  }

  /** The run of `--project=<id>` tokens at the front of `args`. */
  function TakeProjects(args: seq<string>): (seq<string>, seq<string>)
    decreases |args|
  {
    if args != [] && StartsWith(args[0], "--project=") then
      var (ids, rest) := TakeProjects(args[1..]);
      ([args[0][|"--project="|..]] + ids, rest)
    else ([], args)
  }

  /** A `<name>=true` or `<name>=false` token at the front of `args`. */
  function TakeBool(args: seq<string>, name: string): Option<(bool, seq<string>)>
  {
    if args != [] && args[0] == BoolFlag(name, true) then Some((true, args[1..]))
    else if args != [] && args[0] == BoolFlag(name, false) then Some((false, args[1..]))
    else None
  }

  /** The five flags between the dates and the title, in the order htmlReport adds them. */
  function ReadReportFlags(a: seq<string>): Option<(bool, bool, bool, bool, bool, seq<string>)>
  {
    var matrix := TakeBool(a, "--matrix-tables");
    if matrix.None? then None
    else
      var empty := TakeBool(matrix.value.1, "--show-empty");
      if empty.None? then None
      else
        var summary := TakeBool(empty.value.1, "--show-summary");
        if summary.None? then None
        else
          var archived := TakeBool(summary.value.1, "--include-archived");
          if archived.None? then None
          else
            var sales := TakeBool(archived.value.1, "--show-sales");
            if sales.None? then None
            else Some((matrix.value.0, empty.value.0, summary.value.0, archived.value.0, sales.value.0, sales.value.1))
  }

  /** Title, description, rounding mode and the closing `--round-frames-to <text>`, which must end the list. */
  function ReadReportEnd(a: seq<string>): Option<(string, string, Option<string>, string)>
  {
    var (title, a1) := TakeText(a, "--title=");
    var (description, a2) := TakeText(a1, "--description=");
    var (roundFrames, a3) := TakeOption(a2, "--round-frames");
    if |a3| != 2 || a3[0] != "--round-frames-to" then None
    else Some((title, description, roundFrames, a3[1]))
  }

  /** Reads a `report` list back into the request it makes, option by option in the order htmlReport adds them. */
  function ReadReportArgs(args: seq<string>): Option<ReportRequest>
  {
    if args == [] || args[0] != "report" then None
    else
      var (outputFile, a1) := TakeText(args[1..], "--output-file=");
      var (split, a2) := TakePrefixed(a1, "--split=");
      var (ids, a3) := TakeProjects(a2);
      var sub := TakeBool(a3, "--subprojects");
      if split.None? || sub.None? then None
      else
        var (templateID, a4) := TakeText(sub.value.1, "--template=");
        var (start, a5) := TakeDate(a4, "--from=");
        var (end, a6) := TakeDate(a5, "--to=");
        var flags := ReadReportFlags(a6);
        if flags.None? then None
        else
          var (matrix, empty, summary, archived, sales, a7) := flags.value;
          var tail := ReadReportEnd(a7);
          if tail.None? then None
          else
            var (title, description, roundFrames, roundTo) := tail.value;
            Some(ReportRequest(outputFile, split.value, ids, sub.value.0, templateID, start, end,
              matrix, empty, summary, archived, sales, title, description, roundFrames, roundTo))
  }

  /** The tails of a `report` list: what follows "report" (OutputTail), then what follows each option in turn. */
  function RoundTail(o: ReportOptions): seq<string>
  {
    RoundModeArgs(o.rounding) + ["--round-frames-to", RoundToText(o.rounding, o.roundingMinutes)]
  }

  function DescriptionTail(o: ReportOptions): seq<string>
  {
    NonEmptyArg("--description=", o.description) + RoundTail(o)
  }

  function TitleTail(o: ReportOptions): seq<string>
  {
    NonEmptyArg("--title=", o.title) + DescriptionTail(o)
  }

  function FlagsTail(o: ReportOptions): seq<string>
  {
    [BoolFlag("--matrix-tables", o.matrixTables),
     BoolFlag("--show-empty", o.showEmpty),
     BoolFlag("--show-summary", o.showSummary),
     BoolFlag("--include-archived", o.includeArchived),
     BoolFlag("--show-sales", o.showSales)] + TitleTail(o)
  }

  function ToTail(o: ReportOptions): seq<string>
  {
    DateArg("--to=", o.end) + FlagsTail(o)
  }

  function FromTail(o: ReportOptions): seq<string>
  {
    DateArg("--from=", o.start) + ToTail(o)
  }

  function TemplateTail(o: ReportOptions): seq<string>
  {
    NonEmptyArg("--template=", o.templateID) + FromTail(o)
  }

  function SubprojectsTail(o: ReportOptions): seq<string>
  {
    [BoolFlag("--subprojects", o.includeSubprojects)] + TemplateTail(o)
  }

  function ProjectsTail(o: ReportOptions): seq<string>
  {
    ProjectArgs(o.projectIDs) + SubprojectsTail(o)
  }

  function SplitTail(o: ReportOptions): seq<string>
  {
    ["--split=" + Join(o.splits, ",")] + ProjectsTail(o)
  }

  function OutputTail(o: ReportOptions): seq<string>
  {
    NonEmptyArg("--output-file=", o.outputFile) + SplitTail(o)
  }

  lemma Regroup(a: seq<string>, b: seq<string>, c: seq<string>)
    ensures (a + b) + c == a + (b + c)
  {
  }

  /** ReportArgs regrouped from the right, one option at a time. */
  lemma ReportArgsTails(o: ReportOptions)
    ensures ReportArgs(o) == ["report"] + OutputTail(o)
  {
    var p1 := NonEmptyArg("--output-file=", o.outputFile);
    var p2 := p1 + ["--split=" + Join(o.splits, ",")];
    var p3 := p2 + ProjectArgs(o.projectIDs);
    var p4 := p3 + [BoolFlag("--subprojects", o.includeSubprojects)];
    var p5 := p4 + NonEmptyArg("--template=", o.templateID);
    var p6 := p5 + DateArg("--from=", o.start);
    var p7 := p6 + DateArg("--to=", o.end);
    var flags := [BoolFlag("--matrix-tables", o.matrixTables),
         BoolFlag("--show-empty", o.showEmpty),
         BoolFlag("--show-summary", o.showSummary),
         BoolFlag("--include-archived", o.includeArchived),
         BoolFlag("--show-sales", o.showSales)];
    var p8 := p7 + flags;
    var p9 := p8 + NonEmptyArg("--title=", o.title);
    var desc := NonEmptyArg("--description=", o.description);
    assert ReportOptionArgs(o) == p9 + desc;
    var rm := RoundModeArgs(o.rounding);
    var last := ["--round-frames-to", RoundToText(o.rounding, o.roundingMinutes)];
    assert ReportArgs(o) == (ReportHead(o) + rm) + last;
    Regroup(ReportHead(o), rm, last);
    Regroup(["report"], ReportOptionArgs(o), RoundTail(o));
    Regroup(p9, desc, RoundTail(o));
    Regroup(p8, NonEmptyArg("--title=", o.title), DescriptionTail(o));
    Regroup(p7, flags, TitleTail(o));
    Regroup(p6, DateArg("--to=", o.end), FlagsTail(o));
    Regroup(p5, DateArg("--from=", o.start), ToTail(o));
    Regroup(p4, NonEmptyArg("--template=", o.templateID), FromTail(o));
    Regroup(p3, [BoolFlag("--subprojects", o.includeSubprojects)], TemplateTail(o));
    Regroup(p2, ProjectArgs(o.projectIDs), SubprojectsTail(o));
    Regroup(p1, ["--split=" + Join(o.splits, ",")], ProjectsTail(o));
  }

  /** `t` is empty or its first token does not start with `p`. */
  predicate HeadAvoids(t: seq<string>, p: string)
  {
    t != [] ==> !StartsWith(t[0], p)
  }

  lemma NotStartsWith(s: string, p: string, k: nat)
    requires k < |s| && k < |p| && s[k] != p[k]
    ensures !StartsWith(s, p)
  {
    if |s| >= |p| {
      assert s[..|p|][k] == s[k];
    }
  }

  lemma TakePrefixedOf(p: string, v: string, rest: seq<string>)
    ensures TakePrefixed([p + v] + rest, p) == (Some(v), rest)
  {
    var t := p + v;
    assert t[..|p|] == p;
    assert t[|p|..] == v;
    assert ([t] + rest)[1..] == rest;
  }

  lemma TakeTextOf(p: string, v: string, rest: seq<string>)
    requires HeadAvoids(rest, p)
    ensures TakeText(NonEmptyArg(p, v) + rest, p) == (v, rest)
  {
    if v != "" {
      TakePrefixedOf(p, v, rest);
    } else {
      assert NonEmptyArg(p, v) + rest == rest;
    }
  }

  lemma TakeDateOf(p: string, d: Date, rest: seq<string>)
    requires HeadAvoids(rest, p)
    ensures TakeDate(DateArg(p, d) + rest, p) == (d, rest)
  {
    if d.Day? {
      TakePrefixedOf(p, d.startText, rest);
    } else {
      assert DateArg(p, d) + rest == rest;
    }
  }

  lemma {:induction false} TakeProjectsOf(ids: seq<string>, rest: seq<string>)
    requires HeadAvoids(rest, "--project=")
    ensures TakeProjects(ProjectArgs(ids) + rest) == (ids, rest)
    decreases |ids|
  {
    if ids == [] {
      assert ProjectArgs(ids) + rest == rest;
    } else {
      var args := ProjectArgs(ids) + rest;
      assert args == ["--project=" + ids[0]] + (ProjectArgs(ids[1..]) + rest);
      TakePrefixedOf("--project=", ids[0], ProjectArgs(ids[1..]) + rest);
      TakeProjectsOf(ids[1..], rest);
      assert args[1..] == ProjectArgs(ids[1..]) + rest;
      assert StartsWith(args[0], "--project=") && args[0][|"--project="|..] == ids[0];
      assert [ids[0]] + ids[1..] == ids;
    }
  }

  lemma TakeBoolOf(name: string, b: bool, rest: seq<string>)
    ensures TakeBool([BoolFlag(name, b)] + rest, name) == Some((b, rest))
  {
    var yes := BoolFlag(name, true);
    var no := BoolFlag(name, false);
    assert yes[|name| + 1] != no[|name| + 1];
    assert ([BoolFlag(name, b)] + rest)[1..] == rest;
  }

  /** The first token after the title and description options starts with "--r", so neither reads it. */
  lemma DescriptionTailHead(o: ReportOptions)
    ensures HeadAvoids(RoundTail(o), "--description=") && HeadAvoids(DescriptionTail(o), "--title=")
  {
    var r := RoundTail(o);
    assert r[0][2] == 'r';
    NotStartsWith(r[0], "--description=", 2);
    NotStartsWith(r[0], "--title=", 2);
    var d := DescriptionTail(o);
    assert d[0][2] == 'd' || d[0][2] == 'r';
    NotStartsWith(d[0], "--title=", 2);
  }

  /** After the optional dates come the flags, starting with `--matrix-tables`. */
  lemma DateTailHeads(o: ReportOptions)
    ensures HeadAvoids(FlagsTail(o), "--to=")
    ensures HeadAvoids(ToTail(o), "--from=")
    ensures HeadAvoids(FromTail(o), "--template=")
  {
    var f := FlagsTail(o);
    assert f[0][2] == 'm';
    NotStartsWith(f[0], "--to=", 2);
    NotStartsWith(f[0], "--from=", 2);
    NotStartsWith(f[0], "--template=", 2);
    var t := ToTail(o);
    if o.end.Day? {
      assert t[0][2] == 't' && t[0][3] == 'o';
      NotStartsWith(t[0], "--from=", 2);
      NotStartsWith(t[0], "--template=", 3);
    }
    var fr := FromTail(o);
    if o.start.Day? {
      assert fr[0][2] == 'f';
      NotStartsWith(fr[0], "--template=", 2);
    }
  }

  /** `--subprojects=` does not read as a project, and `--split=` not as an output file. */
  lemma ListTailHeads(o: ReportOptions)
    ensures HeadAvoids(SubprojectsTail(o), "--project=")
    ensures HeadAvoids(SplitTail(o), "--output-file=")
  {
    var sub := SubprojectsTail(o);
    assert sub[0][2] == 's';
    NotStartsWith(sub[0], "--project=", 2);
    var sp := SplitTail(o);
    assert sp[0][2] == 's';
    NotStartsWith(sp[0], "--output-file=", 2);
  }

  /** The five flags read back in order. */
  lemma FlagsRead(o: ReportOptions)
    ensures ReadReportFlags(FlagsTail(o))
      == Some((o.matrixTables, o.showEmpty, o.showSummary, o.includeArchived, o.showSales, TitleTail(o)))
  {
    var t := TitleTail(o);
    var f5 := [BoolFlag("--show-sales", o.showSales)] + t;
    var f4 := [BoolFlag("--include-archived", o.includeArchived)] + f5;
    var f3 := [BoolFlag("--show-summary", o.showSummary)] + f4;
    var f2 := [BoolFlag("--show-empty", o.showEmpty)] + f3;
    var f1 := [BoolFlag("--matrix-tables", o.matrixTables)] + f2;
    assert FlagsTail(o) == f1;
    TakeBoolOf("--matrix-tables", o.matrixTables, f2);
    TakeBoolOf("--show-empty", o.showEmpty, f3);
    TakeBoolOf("--show-summary", o.showSummary, f4);
    TakeBoolOf("--include-archived", o.includeArchived, f5);
    TakeBoolOf("--show-sales", o.showSales, t);
    var m := TakeBool(f1, "--matrix-tables");
    assert m.value.1 == f2;
    var e := TakeBool(m.value.1, "--show-empty");
    assert e.value.1 == f3;
    var su := TakeBool(e.value.1, "--show-summary");
    assert su.value.1 == f4;
    var ar := TakeBool(su.value.1, "--include-archived");
    assert ar.value.1 == f5;
    var sa := TakeBool(ar.value.1, "--show-sales");
    assert sa.value.1 == t;
  }

  /** Title, description and rounding read back from what follows the flags. */
  lemma EndRead(o: ReportOptions)
    ensures ReadReportEnd(TitleTail(o))
      == Some((o.title, o.description, RoundModeWord(o.rounding), RoundToText(o.rounding, o.roundingMinutes)))
  {
    DescriptionTailHead(o);
    TakeTextOf("--title=", o.title, DescriptionTail(o));
    TakeTextOf("--description=", o.description, RoundTail(o));
    var text := RoundToText(o.rounding, o.roundingMinutes);
    RoundModeArgsOption(o.rounding);
    TakeOptionArgs("--round-frames", RoundModeWord(o.rounding), ["--round-frames-to", text]);
  }

  /** Output file, split, projects and subprojects read back from what follows "report". */
  lemma HeadRead(o: ReportOptions)
    ensures TakeText(OutputTail(o), "--output-file=") == (o.outputFile, SplitTail(o))
    ensures TakePrefixed(SplitTail(o), "--split=") == (Some(Join(o.splits, ",")), ProjectsTail(o))
    ensures TakeProjects(ProjectsTail(o)) == (o.projectIDs, SubprojectsTail(o))
    ensures TakeBool(SubprojectsTail(o), "--subprojects") == Some((o.includeSubprojects, TemplateTail(o)))
  {
    ListTailHeads(o);
    TakeTextOf("--output-file=", o.outputFile, SplitTail(o));
    TakePrefixedOf("--split=", Join(o.splits, ","), ProjectsTail(o));
    TakeProjectsOf(o.projectIDs, SubprojectsTail(o));
    TakeBoolOf("--subprojects", o.includeSubprojects, TemplateTail(o));
  }

  /** Template and dates read back from what follows the subprojects flag. */
  lemma MiddleRead(o: ReportOptions)
    ensures TakeText(TemplateTail(o), "--template=") == (o.templateID, FromTail(o))
    ensures TakeDate(FromTail(o), "--from=") == (o.start, ToTail(o))
    ensures TakeDate(ToTail(o), "--to=") == (o.end, FlagsTail(o))
  {
    DateTailHeads(o);
    TakeTextOf("--template=", o.templateID, FromTail(o));
    TakeDateOf("--from=", o.start, ToTail(o));
    TakeDateOf("--to=", o.end, FlagsTail(o));
  }

  /** A `report` list reads back as exactly the request htmlReport's parameters make: each option present with its value. */
  lemma ReportRoundTrip(o: ReportOptions)
    ensures ReadReportArgs(ReportArgs(o)) == Some(RequestOf(o))
  {
    ReportArgsTails(o);
    assert ReportArgs(o)[1..] == OutputTail(o);
    HeadRead(o);
    MiddleRead(o);
    FlagsRead(o);
    EndRead(o);
  }
}
