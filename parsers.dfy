/**
  How TomControl reads the tool's output: the tab-separated project listing,
  the status line, the projects-status table, and the JSON of the frame listing
  and of a newly created project.
*/
module Parsers {
  import opened Wrappers
  import opened Text
  import opened Data
  import opened ProjectStatuses

  // ---- project listing: fullName, id, parentID, hourlyRate ----

  /** One listing line: exactly four tab-separated fields, the first holding the name segments joined by "||". */
  function ParseProjectLine(line: string): (r: Option<Project>)
    ensures r.Some? <==> |Split(line, Tab)| == 4
    ensures r.Some? ==> var f := Split(line, Tab);
      r.value == Project(f[1], Split(f[0], NameDelimiter), f[2], f[3])
  {
    var fields := Split(line, Tab);
    if |fields| == 4 then Some(Project(fields[1], Split(fields[0], NameDelimiter), fields[2], fields[3]))
    else None
  }

  /** The projects of the lines that parse, in order; the other lines are dropped. */
  function ProjectsOfLines(lines: seq<string>): (ps: seq<Project>)
    ensures |ps| <= |lines|
    ensures forall p :: p in ps ==> exists k :: 0 <= k < |lines| && ParseProjectLine(lines[k]) == Some(p)
    ensures forall k :: 0 <= k < |lines| && ParseProjectLine(lines[k]).Some? ==> ParseProjectLine(lines[k]).value in ps
    ensures |lines| == 1 ==> ps == (if ParseProjectLine(lines[0]).Some? then [ParseProjectLine(lines[0]).value] else [])
  {
    if lines == [] then []
    else
      var rest := ProjectsOfLines(lines[1..]);
      assert forall p :: p in rest ==> exists k :: 0 <= k < |lines| && ParseProjectLine(lines[k]) == Some(p) by {
        forall p | p in rest ensures exists k :: 0 <= k < |lines| && ParseProjectLine(lines[k]) == Some(p) {
          var k :| 0 <= k < |lines[1..]| && ParseProjectLine(lines[1..][k]) == Some(p);
          assert lines[k + 1] == lines[1..][k];
        }
      }
      assert forall k :: 1 <= k < |lines| && ParseProjectLine(lines[k]).Some? ==> ParseProjectLine(lines[k]).value in rest by {
        forall k | 1 <= k < |lines| && ParseProjectLine(lines[k]).Some?
          ensures ParseProjectLine(lines[k]).value in rest
        {
          assert lines[1..][k - 1] == lines[k];
        }
      }
      match ParseProjectLine(lines[0])
      case Some(p) => [p] + rest
      case None => rest
  }

  /** The projects a listing names: its non-empty lines that parse. */
  function ParseProjectListing(out: string): (ps: seq<Project>)
    ensures var lines := SplitSkipEmpty(out, Newline);
      forall p :: p in ps ==> exists k :: 0 <= k < |lines| && ParseProjectLine(lines[k]) == Some(p)
    ensures var lines := SplitSkipEmpty(out, Newline);
      forall k :: 0 <= k < |lines| && ParseProjectLine(lines[k]).Some? ==> ParseProjectLine(lines[k]).value in ps
  {
    ProjectsOfLines(SplitSkipEmpty(out, Newline))
  }

  /**
    The projects of two runs of lines are those of the first followed by those
    of the second: every parsing line is listed, in line order, and a line that
    does not parse drops only itself.
  */
  lemma {:induction false} ProjectsOfLinesConcat(a: seq<string>, b: seq<string>)
    ensures ProjectsOfLines(a + b) == ProjectsOfLines(a) + ProjectsOfLines(b)
    decreases |a|
  {
    if a == [] {
      assert a + b == b;
    } else {
      assert (a + b)[1..] == a[1..] + b;
      assert (a + b)[0] == a[0];
      ProjectsOfLinesConcat(a[1..], b);
    }
  }

  /** A line that does not parse between two runs of lines is skipped, and the projects around it keep their order. */
  lemma DroppedLineKeepsNeighbours(a: seq<string>, bad: string, b: seq<string>)
    requires ParseProjectLine(bad).None?
    ensures ProjectsOfLines(a + [bad] + b) == ProjectsOfLines(a) + ProjectsOfLines(b)
  {
    var one := [bad];
    var none := ProjectsOfLines(one);
    assert none == [];
    ProjectsOfLinesConcat(a, one);
    ProjectsOfLinesConcat(a + one, b);
    assert ProjectsOfLines(a) + none == ProjectsOfLines(a);
  }

  /** The line the tool prints for a project. */
  function FormatProjectLine(p: Project): string
  {
    Join([Join(p.name, NameDelimiter), p.id, p.parentID, p.hourlyRate], Tab)
  }

  /** The listing the tool prints: one line per project, each ended by a newline. */
  function FormatListing(ps: seq<Project>): string
  {
    if ps == [] then "" else FormatProjectLine(ps[0]) + Newline + FormatListing(ps[1..])
  }

  /** The characters that cannot occur inside a field of the listing. */
  const Reserved: string := "\t\n|"

  /** A project the listing can carry: at least one name segment, and no reserved character in any field. */
  predicate Listable(p: Project)
  {
    && |p.name| >= 1
    && (forall k :: 0 <= k < |p.name| ==> Avoids(p.name[k], Reserved))
    && Avoids(p.id, Reserved) && Avoids(p.parentID, Reserved) && Avoids(p.hourlyRate, Reserved)
  }

  lemma AvoidsWeaker(s: string, sep: string)
    requires Avoids(s, Reserved)
    requires forall c :: c in sep ==> c in Reserved
    ensures Avoids(s, sep)
  {
  }

  lemma {:induction false} JoinAvoids(parts: seq<string>, sep: string, chars: string)
    requires forall k :: 0 <= k < |parts| ==> Avoids(parts[k], chars)
    requires Avoids(sep, chars)
    ensures Avoids(Join(parts, sep), chars)
    decreases |parts|
  {
    if |parts| > 1 {
      JoinAvoids(parts[1..], sep, chars);
    }
  }

  /** A project line splits into the four fields it was made of. */
  lemma ProjectLineFields(p: Project)
    requires Listable(p)
    ensures Split(FormatProjectLine(p), Tab) == [Join(p.name, NameDelimiter), p.id, p.parentID, p.hourlyRate]
    ensures Avoids(FormatProjectLine(p), Newline)
  {
    var fields := [Join(p.name, NameDelimiter), p.id, p.parentID, p.hourlyRate];
    forall k | 0 <= k < |p.name| ensures Avoids(p.name[k], Tab) && Avoids(p.name[k], Newline) {
      AvoidsWeaker(p.name[k], Tab);
      AvoidsWeaker(p.name[k], Newline);
    }
    JoinAvoids(p.name, NameDelimiter, Tab);
    JoinAvoids(p.name, NameDelimiter, Newline);
    AvoidsWeaker(p.id, Tab);
    AvoidsWeaker(p.parentID, Tab);
    AvoidsWeaker(p.hourlyRate, Tab);
    AvoidsWeaker(p.id, Newline);
    AvoidsWeaker(p.parentID, Newline);
    AvoidsWeaker(p.hourlyRate, Newline);
    SplitJoin(fields, Tab);
    JoinAvoids(fields, Tab, Newline);
  }

  /** Reading back the line the tool prints for a project gives that project. */
  lemma ProjectLineRoundTrip(p: Project)
    requires Listable(p)
    ensures ParseProjectLine(FormatProjectLine(p)) == Some(p)
  {
    ProjectLineFields(p);
    forall k | 0 <= k < |p.name| ensures Avoids(p.name[k], NameDelimiter) {
      AvoidsWeaker(p.name[k], NameDelimiter);
    }
    SplitJoin(p.name, NameDelimiter);
  }

  /** A line with other than four fields yields no project. */
  lemma ProjectLineNeedsFourFields(line: string)
    requires |Split(line, Tab)| != 4
    ensures ParseProjectLine(line) == None
  {
  }

  /** Reading back a whole listing gives the listed projects, in order. */
  lemma {:induction false} ListingRoundTrip(ps: seq<Project>)
    requires forall k :: 0 <= k < |ps| ==> Listable(ps[k])
    ensures ParseProjectListing(FormatListing(ps)) == ps
    decreases |ps|
  {
    if ps != [] {
      var line := FormatProjectLine(ps[0]);
      var rest := FormatListing(ps[1..]);
      ProjectLineFields(ps[0]);
      ProjectLineRoundTrip(ps[0]);
      assert line != "" by {
        assert |Split(line, Tab)| == 4;
      }
      SplitCons(line, Newline, rest);
      ListingRoundTrip(ps[1..]);
      var lines := Split(rest, Newline);
      assert Split(line + Newline + rest, Newline) == [line] + lines;
      assert ([line] + lines)[1..] == lines;
      assert NonEmpty([line] + lines) == [line] + NonEmpty(lines);
      var nonEmpty := [line] + NonEmpty(lines);
      assert nonEmpty[1..] == NonEmpty(lines);
      assert ProjectsOfLines(nonEmpty) == [ps[0]] + ProjectsOfLines(NonEmpty(lines));
      assert ps == [ps[0]] + ps[1..];
    }
  }

  // ---- status line: id, projectFullName, projectID, projectParentID, startTime ----

  /** What one status poll reads: a snapshot, or a first line of the wrong shape. */
  datatype StatusReading = Snapshot(status: TomStatus) | Malformed

  /**
    The result of the status command. A failed command or an output without a
    non-empty line reads as "no timer"; a first line with exactly five
    tab-separated fields reads as a running timer; any other first line is malformed.
  */
  function ReadStatus(st: CommandStatus): (r: StatusReading)
    ensures !IsSuccessful(st) ==> r == Snapshot(NoStatus)
    ensures r.Malformed? <==>
      IsSuccessful(st) && SplitSkipEmpty(st.stdoutContent, Newline) != [] &&
      |Split(SplitSkipEmpty(st.stdoutContent, Newline)[0], Tab)| != 5
    ensures r.Snapshot? && r.status.isValid ==> r.status.project.hourlyRate == ""
    ensures IsSuccessful(st) && SplitSkipEmpty(st.stdoutContent, Newline) == [] ==> r == Snapshot(NoStatus)
    ensures var lines := SplitSkipEmpty(st.stdoutContent, Newline);
      IsSuccessful(st) && lines != [] && |Split(lines[0], Tab)| == 5 ==>
        var f := Split(lines[0], Tab);
        && r.Snapshot? && r.status.isValid
        && r.status.project.name == Split(f[1], NameDelimiter)
        && r.status.project.id == f[2]
        && r.status.project.parentID == f[3]
        && r.status.startTime == ParseIsoDateTime(f[4])
  {
    if !IsSuccessful(st) then Snapshot(NoStatus)
    else
      var lines := SplitSkipEmpty(st.stdoutContent, Newline);
      if lines == [] then Snapshot(NoStatus)
      else
        var parts := Split(lines[0], Tab);
        if |parts| != 5 then Malformed
        else
          var project := Project(parts[2], Split(parts[1], NameDelimiter), parts[3], "");
          Snapshot(TomStatus(true, project, ParseIsoDateTime(parts[4])))
  }

  /** The status line the tool prints for a running frame of project `p`. */
  function FormatStatusLine(frameID: string, p: Project, startTime: string): string
  {
    Join([frameID, Join(p.name, NameDelimiter), p.id, p.parentID, startTime], Tab)
  }

  /** Reading back a status line gives a valid snapshot of the frame's project (without its hourly rate) and start time. */
  lemma StatusLineRoundTrip(frameID: string, p: Project, startTime: string, stderr: string)
    requires Listable(p) && Avoids(frameID, Reserved) && Avoids(startTime, Reserved)
    ensures ReadStatus(CommandStatus(FormatStatusLine(frameID, p, startTime) + Newline, stderr, 0))
         == Snapshot(TomStatus(true, p.(hourlyRate := ""), ParseIsoDateTime(startTime)))
  {
    var line := FormatStatusLine(frameID, p, startTime);
    var name := Join(p.name, NameDelimiter);
    var fields := [frameID, name, p.id, p.parentID, startTime];
    forall k | 0 <= k < |p.name| ensures Avoids(p.name[k], Tab) && Avoids(p.name[k], Newline) && Avoids(p.name[k], NameDelimiter) {
      AvoidsWeaker(p.name[k], Tab);
      AvoidsWeaker(p.name[k], Newline);
      AvoidsWeaker(p.name[k], NameDelimiter);
    }
    JoinAvoids(p.name, NameDelimiter, Tab);
    JoinAvoids(p.name, NameDelimiter, Newline);
    forall k | 0 <= k < |fields| ensures Avoids(fields[k], Tab) && Avoids(fields[k], Newline) {
      if k != 1 {
        AvoidsWeaker(fields[k], Tab);
        AvoidsWeaker(fields[k], Newline);
      }
    }
    SplitJoin(fields, Tab);
    JoinAvoids(fields, Tab, Newline);
    assert line != "" by {
      assert |Split(line, Tab)| == 5;
    }
    SplitCons(line, Newline, "");
    assert line + Newline == line + Newline + "";
    assert Split(line + Newline, Newline) == [line, ""];
    assert NonEmpty([line, ""]) == [line] by {
      assert [line, ""][1..] == [""];
      assert [""][1..] == [];
    }
    SplitJoin(p.name, NameDelimiter);
  }

  /** A first status line with other than five fields is malformed, whatever follows it. */
  lemma StatusNeedsFiveFields(st: CommandStatus)
    requires IsSuccessful(st)
    requires var lines := SplitSkipEmpty(st.stdoutContent, Newline); lines != [] && |Split(lines[0], Tab)| != 5
    ensures ReadStatus(st) == Malformed
  {
  }

  // ---- projects status table ----

  /** The columns TomControl requests from `status projects`, in order. */
  const StatusColumns: seq<string> := [
    "id", "trackedDay", "totalTrackedDay", "trackedWeek", "totalTrackedWeek",
    "trackedMonth", "totalTrackedMonth", "trackedYear", "totalTrackedYear",
    "trackedAll", "totalTrackedAll"]

  /** The comma-separated column list passed to `-f`. */
  function StatusColumnList(): string
  {
    Join(StatusColumns, ",")
  }

  /** The column list splits back into the requested columns. */
  lemma StatusColumnsSplit()
    ensures Split(StatusColumnList(), ",") == StatusColumns
  {
    forall k | 0 <= k < |StatusColumns| ensures Avoids(StatusColumns[k], ",") {
      assert ',' !in StatusColumns[k];
    }
    SplitJoin(StatusColumns, ",");
  }

  /** The number of occurrences of `c` in `s`. */
  function CountChar(s: string, c: char): nat
  {
    if s == [] then 0 else (if s[0] == c then 1 else 0) + CountChar(s[1..], c)
  }

  lemma {:induction false} CountCharAppend(a: string, b: string, c: char)
    ensures CountChar(a + b, c) == CountChar(a, c) + CountChar(b, c)
    decreases |a|
  {
    if a != [] {
      assert (a + b)[0] == a[0];
      assert (a + b)[1..] == a[1..] + b;
      CountCharAppend(a[1..], b, c);
      assert CountChar(a + b, c) == (if a[0] == c then 1 else 0) + CountChar(a[1..] + b, c);
    } else {
      assert a + b == b;
    }
  }

  lemma {:induction false} CountCharAvoiding(s: string, c: char)
    requires Avoids(s, [c])
    ensures CountChar(s, c) == 0
    decreases |s|
  {
    if s != [] {
      assert s[0] !in [c];
      CountCharAvoiding(s[1..], c);
    }
  }

  /** Joining parts that do not contain `c` with the separator `c` puts exactly one `c` between neighbours. */
  lemma {:induction false} CountCharJoin(parts: seq<string>, c: char)
    requires |parts| >= 1
    requires forall k :: 0 <= k < |parts| ==> Avoids(parts[k], [c])
    ensures CountChar(Join(parts, [c]), c) == |parts| - 1
    decreases |parts|
  {
    CountCharAvoiding(parts[0], c);
    if |parts| > 1 {
      CountCharJoin(parts[1..], c);
      CountCharAppend(parts[0] + [c], Join(parts[1..], [c]), c);
      CountCharAppend(parts[0], [c], c);
    }
  }

  /** idList.count(',') + 1: one column per requested field. */
  function ExpectedColumns(): nat
  {
    CountChar(StatusColumnList(), ',') + 1
  }

  /** Eleven columns are requested, so a table line needs exactly eleven fields. */
  lemma RequestedColumns()
    ensures ExpectedColumns() == |StatusColumns| == 11
  {
    forall k | 0 <= k < |StatusColumns| ensures Avoids(StatusColumns[k], ",") {
      assert ',' !in StatusColumns[k];
    }
    CountCharJoin(StatusColumns, ',');
  }

  /**
    A table line is accepted when it has exactly as many tab-separated fields as
    columns were requested (RequestedColumns: that is ExpectedColumns()).
  */
  predicate IsStatusRow(line: string)
  {
    |Split(line, Tab)| == |StatusColumns|
  }

  function Span(text: string): Timespan
  {
    Timespan(ParseLongLong(text))
  }

  /**
    The aggregate of one accepted line, keyed by its first field; each duration
    goes to the field of the column that carries it. The two "yesterday" fields
    are not requested and stay zero.
  */
  function StatusOfRow(line: string): (s: ProjectStatus)
    requires IsStatusRow(line)
    ensures var f := Split(line, Tab);
      && s.id == f[0]
      && s.day == Span(f[1]) && s.dayTotal == Span(f[2])
      && s.week == Span(f[3]) && s.weekTotal == Span(f[4])
      && s.month == Span(f[5]) && s.monthTotal == Span(f[6])
      && s.year == Span(f[7]) && s.yearTotal == Span(f[8])
      && s.all == Span(f[9]) && s.allTotal == Span(f[10])
      && s.yesterday == Zero && s.yesterdayTotal == Zero
  {
    var f := Split(line, Tab);
    ProjectStatus(f[0],
      Span(f[9]), Span(f[10]), Span(f[7]), Span(f[8]), Span(f[5]), Span(f[6]),
      Span(f[3]), Span(f[4]), Zero, Zero, Span(f[1]), Span(f[2]))
  }

  /**
    The same call read by position against the 13-parameter constructor, with
    the last two parameters left at a zero default: the day durations land in
    the "yesterday" fields and the day fields stay zero.
  */
  function StatusOfRowByPosition(line: string): (s: ProjectStatus)
    requires IsStatusRow(line)
    ensures var f := Split(line, Tab);
      && s.id == f[0]
      && s.yesterday == Span(f[1]) && s.yesterdayTotal == Span(f[2])
      && s.day == Zero && s.dayTotal == Zero
  {
    var f := Split(line, Tab);
    ProjectStatus(f[0],
      Span(f[9]), Span(f[10]), Span(f[7]), Span(f[8]), Span(f[5]), Span(f[6]),
      Span(f[3]), Span(f[4]), Span(f[1]), Span(f[2]), Zero, Zero)
  }

  /** Read by position, a row whose day total is not zero loses it: the Today column would show zero. */
  lemma PositionalLosesToday(line: string)
    requires IsStatusRow(line) && ParseLongLong(Split(line, Tab)[2]) != 0
    ensures StatusOfRowByPosition(line).dayTotal == Zero
    ensures StatusOfRow(line).dayTotal != StatusOfRowByPosition(line).dayTotal
    ensures StatusOfRowByPosition(line).yesterdayTotal == StatusOfRow(line).dayTotal
  {
  }

  /** The id of an accepted line. */
  function RowID(line: string): string
    requires IsStatusRow(line)
  {
    Split(line, Tab)[0]
  }

  /** The table the accepted lines make, inserted in order so that a later line for an id replaces an earlier one. */
  function StatusesOfLines(lines: seq<string>): (m: map<string, ProjectStatus>)
    ensures forall id :: id in m <==> HasRow(lines, id)
    ensures forall id :: id in m ==> m[id].id == id
  {
    if lines == [] then map[]
    else
      var init := lines[..|lines| - 1];
      var last := lines[|lines| - 1];
      var m := StatusesOfLines(init);
      HasRowSnoc(lines);
      if IsStatusRow(last) then m[RowID(last) := StatusOfRow(last)] else m
  }

  /** Some accepted line of `lines` has the id `id`. */
  predicate HasRow(lines: seq<string>, id: string)
  {
    exists k :: 0 <= k < |lines| && IsStatusRow(lines[k]) && RowID(lines[k]) == id
  }

  lemma HasRowSnoc(lines: seq<string>)
    requires lines != []
    ensures forall id :: HasRow(lines, id) <==>
      HasRow(lines[..|lines| - 1], id) || (IsStatusRow(lines[|lines| - 1]) && RowID(lines[|lines| - 1]) == id)
  {
    var init := lines[..|lines| - 1];
    forall id | HasRow(init, id) ensures HasRow(lines, id) {
      var k :| 0 <= k < |init| && IsStatusRow(init[k]) && RowID(init[k]) == id;
      assert lines[k] == init[k];
    }
    forall id | HasRow(lines, id)
      ensures HasRow(init, id) || (IsStatusRow(lines[|lines| - 1]) && RowID(lines[|lines| - 1]) == id)
    {
      var k :| 0 <= k < |lines| && IsStatusRow(lines[k]) && RowID(lines[k]) == id;
      if k < |init| {
        assert lines[k] == init[k];
      }
    }
  }

  /** The mapped aggregate of an id comes from the last accepted line with that id. */
  lemma {:induction false} StatusesLastWins(lines: seq<string>, k: nat)
    requires k < |lines| && IsStatusRow(lines[k])
    requires forall j :: k < j < |lines| && IsStatusRow(lines[j]) ==> RowID(lines[j]) != RowID(lines[k])
    ensures StatusesOfLines(lines)[RowID(lines[k])] == StatusOfRow(lines[k])
    decreases |lines|
  {
    var init := lines[..|lines| - 1];
    if k < |lines| - 1 {
      assert init[k] == lines[k];
      forall j | k < j < |init| && IsStatusRow(init[j]) ensures RowID(init[j]) != RowID(init[k]) {
        assert init[j] == lines[j];
      }
      StatusesLastWins(init, k);
    }
  }

  /** The lookup `status projects` produces: empty when the command fails, else the table of its non-empty lines. */
  function ReadProjectsStatus(st: CommandStatus): (r: ProjectsStatus)
    ensures !IsSuccessful(st) ==> r.Size() == 0
    ensures IsSuccessful(st) ==> forall id :: (id in r.mapping <==> HasRow(SplitSkipEmpty(st.stdoutContent, Newline), id))
    ensures IsSuccessful(st) ==> forall id :: id in r.mapping ==> r.Get(id).id == id
    ensures IsSuccessful(st) ==> r.mapping == StatusesOfLines(SplitSkipEmpty(st.stdoutContent, Newline))
  {
    if !IsSuccessful(st) then EmptyStatuses
    else ProjectsStatus(StatusesOfLines(SplitSkipEmpty(st.stdoutContent, Newline)))
  }

  // ---- frame listing (JSON) ----

  /** One frame object; missing or mistyped members read as empty text, a null time or false. No tags are read. */
  function FrameOf(obj: map<string, Json>): (f: Frame)
    ensures f.id == StringValue(Member(obj, "id")) && f.projectID == StringValue(Member(obj, "projectID"))
    ensures f.startTime == ParseIsoDateTime(StringValue(Member(obj, "startTime")))
    ensures f.stopTime == ParseIsoDateTime(StringValue(Member(obj, "stopTime")))
    ensures f.lastUpdated == ParseIsoDateTime(StringValue(Member(obj, "lastUpdated")))
    ensures f.stopTime.NullTime? <==> StringValue(Member(obj, "stopTime")) == ""
    ensures f.notes == StringValue(Member(obj, "notes"))
    ensures f.tags == [] && f.archived == BoolValue(Member(obj, "archived"), false)
  {
    Frame(
      StringValue(Member(obj, "id")),
      StringValue(Member(obj, "projectID")),
      ParseIsoDateTime(StringValue(Member(obj, "startTime"))),
      ParseIsoDateTime(StringValue(Member(obj, "stopTime"))),
      ParseIsoDateTime(StringValue(Member(obj, "lastUpdated"))),
      StringValue(Member(obj, "notes")),
      [],
      BoolValue(Member(obj, "archived"), false))
  }

  /** The frames of the leading run of objects in the array: decoding stops at the first item that is not an object. */
  function DecodeFrames(items: seq<Json>): (frames: seq<Frame>)
    ensures |frames| <= |items|
    ensures forall k :: 0 <= k < |frames| ==> items[k].JObject? && frames[k] == FrameOf(items[k].fields)
    ensures |frames| < |items| ==> !items[|frames|].JObject?
  {
    if items == [] || !items[0].JObject? then []
    else [FrameOf(items[0].fields)] + DecodeFrames(items[1..])
  }

  /** The frames `frames -o json` yields: none when the command fails or its output is not a JSON array. */
  function ReadFrames(st: CommandStatus, parseJson: string -> Json): (frames: seq<Frame>)
    ensures !IsSuccessful(st) ==> frames == []
    ensures IsSuccessful(st) && parseJson(st.stdoutContent).JArray? ==>
      frames == DecodeFrames(parseJson(st.stdoutContent).items)
    ensures IsSuccessful(st) && !parseJson(st.stdoutContent).JArray? ==> frames == []
  {
    if !IsSuccessful(st) then []
    else
      var doc := parseJson(st.stdoutContent);
      if doc.JArray? then DecodeFrames(doc.items) else []
  }

  /** An array whose items are all objects decodes to one frame per item. */
  lemma {:induction false} DecodeAllObjects(items: seq<Json>)
    requires forall k :: 0 <= k < |items| ==> items[k].JObject?
    ensures |DecodeFrames(items)| == |items|
  {
  }

  /** A leading frame object without a stop time decodes to a running frame, one whose stop time is null. */
  lemma RunningFrameDecodes(items: seq<Json>)
    requires items != [] && items[0].JObject?
    requires StringValue(Member(items[0].fields, "stopTime")) == ""
    ensures DecodeFrames(items) != [] && DecodeFrames(items)[0].stopTime == NullTime
    ensures DecodeFrames(items)[0].id == StringValue(Member(items[0].fields, "id"))
  {
  }

  // ---- created project (JSON) ----

  /** The project `create project --output json` reports: its id, parent and name segments, with no hourly rate. */
  function CreatedProject(doc: Json): (p: Project)
    ensures p.id == StringValue(Member(ObjectValue(doc), "id"))
    ensures p.parentID == StringValue(Member(ObjectValue(doc), "parent"))
    ensures |p.name| == |ArrayValue(Member(ObjectValue(doc), "fullName"))|
    ensures forall k :: 0 <= k < |p.name| ==> p.name[k] == StringValue(ArrayValue(Member(ObjectValue(doc), "fullName"))[k])
    ensures p.hourlyRate == ""
  {
    var item := ObjectValue(doc);
    var names := ArrayValue(Member(item, "fullName"));
    Project(
      StringValue(Member(item, "id")),
      seq(|names|, k requires 0 <= k < |names| => StringValue(names[k])),
      StringValue(Member(item, "parent")),
      "")
  }
}
