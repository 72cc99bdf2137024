/**
  FrameTableViewModel: the table of one project's frames. Its own state is the
  ordered frame list and the project it shows; edits and reloads go through the
  controller, and the model's change notifications are recorded in order.
*/
module FrameTable {
  import opened Wrappers
  import opened Data
  import opened Parsers
  import opened Arguments
  import opened Activity
  import opened Control

  // ---- layout ----

  const ColStartDate := 0
  const ColStart := 1
  const ColEnd := 2
  const ColDuration := 3
  const ColTags := 4
  const ColProject := 5
  const ColNotes := 6
  const ColumnCount := ColNotes + 1

  /** The MIME type of dragged frames. */
  const FramesMimeType := "application/x-tom-frames"

  /** The columns, in display order. */
  const Columns := [ColStartDate, ColStart, ColEnd, ColDuration, ColTags, ColProject, ColNotes]

  /** The columns are the consecutive integers 0 to 6, one per column, and the count is seven. */
  lemma ColumnLayout()
    ensures ColumnCount == |Columns| == 7
    ensures forall k :: 0 <= k < |Columns| ==> Columns[k] == k
  {
  }

  /** headerData for the display role of a horizontal header: a title per column, none elsewhere. */
  function HeaderTitle(section: int): (title: string)
    ensures title != "" <==> 0 <= section < ColumnCount
    ensures 0 <= section < ColumnCount ==>
      title == ["Day", "Start", "End", "Duration", "Tags", "Project", "Notes"][section]
  {
    if section == ColStartDate then "Day"
    else if section == ColStart then "Start"
    else if section == ColEnd then "End"
    else if section == ColDuration then "Duration"
    else if section == ColTags then "Tags"
    else if section == ColProject then "Project"
    else if section == ColNotes then "Notes"
    else ""
  }

  /**
    headerData(section, orientation, role): on the horizontal header, the column's
    title for the display role; for the alignment role, leading for the day and
    start columns and trailing for the end and duration columns; nothing otherwise.
  */
  function HeaderData(section: int, horizontal: bool, role: int): (r: HeaderValue)
    ensures !horizontal ==> r == NoValue
    ensures horizontal && role == DisplayRole ==>
      (if 0 <= section < ColumnCount then r == Caption(HeaderTitle(section)) && r.text != "" else r == NoValue)
    ensures horizontal && role == TextAlignmentRole ==>
      (if section == ColStartDate || section == ColStart then r == Alignment(AlignLeft)
       else if section == ColEnd || section == ColDuration then r == Alignment(AlignRight)
       else r == NoValue)
    ensures role != DisplayRole && role != TextAlignmentRole ==> r == NoValue
  {
    if horizontal && role == DisplayRole && HeaderTitle(section) != "" then Caption(HeaderTitle(section))
    else if horizontal && role == TextAlignmentRole then
      (if section == ColStartDate || section == ColStart then Alignment(AlignLeft)
       else if section == ColDuration || section == ColEnd then Alignment(AlignRight)
       else NoValue)
    else NoValue
  }

  /** No two columns share a title. */
  lemma HeaderTitlesDistinct(i: int, j: int)
    requires 0 <= i < ColumnCount && 0 <= j < ColumnCount && i != j
    ensures HeaderTitle(i) != HeaderTitle(j)
  {
  }

  // ---- indexes, roles and values ----

  /** A model index: the invalid one, or a cell. */
  datatype TableIndex = NoIndex | Cell(row: nat, column: nat)

  /** Qt::EditRole. */
  const EditRole := 2

  /** The QVariant an editor hands to setData. */
  datatype Variant = VDateTime(time: DateTime) | VString(text: string) | VNone

  /** QVariant::toDateTime: a text converts by its ISO reading, anything else to the null time. */
  function ToDateTime(v: Variant): DateTime
  {
    match v
    case VDateTime(t) => t
    case VString(s) => ParseIsoDateTime(s)
    case VNone => NullTime
  }

  /** QVariant::toString. */
  function ToText(v: Variant): string
  {
    match v
    case VDateTime(t) => IsoText(t)
    case VString(s) => s
    case VNone => ""
  }

  /** flags(): a cell is editable exactly when the index is valid and it is not the duration, tags or project column. */
  predicate IsEditable(index: TableIndex)
  {
    index.Cell? && index.column != ColDuration && index.column != ColTags && index.column != ColProject
  }

  /** The columns whose edits setData sends to the controller: start, end and notes. */
  predicate Writable(column: int)
  {
    column == ColStart || column == ColEnd || column == ColNotes
  }

  /** Every cell setData can change successfully is one flags() marks editable; the start-date column is editable but always refused. */
  lemma WritableIsEditable(row: nat, column: nat)
    ensures Writable(column) ==> IsEditable(Cell(row, column))
    ensures IsEditable(Cell(row, column)) && !Writable(column) <==> column == ColStartDate || column >= ColumnCount
  {
  }

  /** The change setData asks for when it edits `column` of one frame. */
  function CellEdit(column: int, value: Variant): (e: FrameEdit)
    requires Writable(column)
    ensures e.start.Some? <==> column == ColStart
    ensures e.end.Some? <==> column == ColEnd
    ensures e.notes.Some? <==> column == ColNotes
    ensures e.project.None? && e.archived.None?
    ensures column == ColStart ==> e.start == Some(ToDateTime(value))
    ensures column == ColEnd ==> e.end == Some(ToDateTime(value))
    ensures column == ColNotes ==> e.notes == Some(ToText(value))
  {
    FrameEditOf(column == ColStart, if column == ColStart then ToDateTime(value) else NullTime,
                column == ColEnd, if column == ColEnd then ToDateTime(value) else NullTime,
                column == ColNotes, if column == ColNotes then ToText(value) else "",
                false, "", false, false)
  }

  /** The frame after a successful edit of `column`: that field takes the value, every other field stays. */
  function EditedFrame(f: Frame, column: int, value: Variant): (g: Frame)
    requires Writable(column)
    ensures g.id == f.id && g.projectID == f.projectID && g.lastUpdated == f.lastUpdated
    ensures g.tags == f.tags && g.archived == f.archived
    ensures g.startTime == (if column == ColStart then ToDateTime(value) else f.startTime)
    ensures g.stopTime == (if column == ColEnd then ToDateTime(value) else f.stopTime)
    ensures g.notes == (if column == ColNotes then ToText(value) else f.notes)
  {
    if column == ColStart then f.(startTime := ToDateTime(value))
    else if column == ColEnd then f.(stopTime := ToDateTime(value))
    else f.(notes := ToText(value))
  }

  // ---- list removal ----

  /** QList::removeAt(i): the element at `i` goes; an index out of range changes nothing. */
  function RemoveAt<T>(s: seq<T>, i: int): (r: seq<T>)
    ensures 0 <= i < |s| ==> |r| == |s| - 1 && r == s[..i] + s[i + 1..]
    ensures !(0 <= i < |s|) ==> r == s
  {
    if 0 <= i < |s| then s[..i] + s[i + 1..] else s
  }

  /** The list removeRows(row, count) leaves, read as written: removeAt(row + i) for i from `done` up to `count`, on the shrinking list. */
  function RemovedAsWritten<T>(s: seq<T>, row: int, done: int, count: int): seq<T>
    decreases count - done
  {
    if done >= count then s else RemovedAsWritten(RemoveAt(s, row + done), row, done + 1, count)
  }

  /** The evidently intended removal: the `count` elements from `row` on go, the rest keep their order. */
  function RemovedBlock<T>(s: seq<T>, row: nat, count: nat): (r: seq<T>)
    requires row + count <= |s|
    ensures |r| == |s| - count
    ensures forall k :: 0 <= k < row ==> r[k] == s[k]
    ensures forall k :: row <= k < |r| ==> r[k] == s[k + count]
  {
    s[..row] + s[row + count..]
  }

  /** Removing at `row` again and again takes out the block from `row`: the loop the intended removal needs. */
  lemma {:induction false} RepeatedRemoveAtRow<T>(s: seq<T>, row: nat, count: nat)
    requires row + count <= |s|
    ensures Repeat(s, row, count) == RemovedBlock(s, row, count)
    decreases count
  {
    if count > 0 {
      RepeatedRemoveAtRow(RemoveAt(s, row), row, count - 1);
      assert RemoveAt(s, row)[..row] == s[..row];
      assert RemoveAt(s, row)[row + count - 1..] == s[row + count..];
    }
  }

  /** `count` removals at the same index `row`. */
  function Repeat<T>(s: seq<T>, row: int, count: nat): seq<T>
  {
    if count == 0 then s else Repeat(RemoveAt(s, row), row, count - 1)
  }

  /** For a single row, the loop as written removes exactly that row, like the intended removal. */
  lemma SingleRowAgrees<T>(s: seq<T>, row: nat)
    requires row < |s|
    ensures RemovedAsWritten(s, row, 0, 1) == RemovedBlock(s, row, 1) == RemoveAt(s, row)
  {
  }

  /** Removing the first two of four rows as written keeps the second and the fourth. */
  lemma TwoRowsSkipOne()
    ensures RemovedAsWritten([10, 11, 12, 13], 0, 0, 2) == [11, 13]
    ensures RemovedBlock([10, 11, 12, 13], 0, 2) == [12, 13]
  {
    assert RemoveAt([10, 11, 12, 13], 0) == [11, 12, 13];
    assert RemoveAt([11, 12, 13], 1) == [11, 13];
  }

  /** Removing both rows of two as written keeps the second, although removeRows reports success. */
  lemma AllRowsLeaveOne()
    ensures RemovedAsWritten([10, 11], 0, 0, 2) == [11]
    ensures RemovedBlock([10, 11], 0, 2) == []
  {
    assert RemoveAt([10, 11], 0) == [11];
    assert RemoveAt([11], 1) == [11];
  }

  /** removeRows' guard: it proceeds unless `row` or the block's last row lies at or past the end. */
  predicate RemoveInBounds(size: int, row: int, count: int)
  {
    !(row >= size || row + count - 1 >= size)
  }

  // ---- lookup ----

  /** findRow's answer: the index of the first frame with that id, or -1. */
  function FirstIndexOf(frames: seq<Frame>, id: string): (r: int)
    ensures -1 <= r < |frames|
    ensures r == -1 <==> forall k :: 0 <= k < |frames| ==> frames[k].id != id
    ensures r >= 0 ==> frames[r].id == id && forall k :: 0 <= k < r ==> frames[k].id != id
  {
    if frames == [] then -1
    else if frames[0].id == id then 0
    else
      var r := FirstIndexOf(frames[1..], id);
      assert forall k :: 1 <= k < |frames| ==> frames[1..][k - 1] == frames[k];
      if r == -1 then -1 else r + 1
  }

  /** The model's change notifications, in the order it sends them. */
  datatype Notice = ModelReset | RowsRemoved(first: int, last: int) | DataChanged(row: int, column: int)

  class FrameTableViewModel {
    const control: TomControl
    var frames: seq<Frame>
    var currentProject: Project
    var notices: seq<Notice>

    /** The model starts with no frames and no project. */
    constructor (control: TomControl)
      ensures this.control == control && frames == [] && currentProject == NoProject && notices == []
    {
      this.control := control;
      frames := [];
      currentProject := NoProject;
      notices := [];
    }

    /** loadFrames(project): a reset; the project becomes current and the frames are its own and its subprojects', or none for an invalid project. */
    method LoadFrames(project: Project)
      modifies this`frames, this`currentProject, this`notices, control`issued
      ensures currentProject == project && notices == old(notices) + [ModelReset]
      ensures !IsValid(project) ==> frames == [] && control.issued == old(control.issued)
      ensures IsValid(project) ==>
        var args := FramesArgs(project.id, true, control.defaultIncludeArchived);
        control.issued == old(control.issued) + [args]
        && frames == ReadFrames(old(control.Answer(args)), control.parseJson)
    {
      currentProject := project;
      if IsValid(project) {
        frames := control.LoadFrames(project.id, true, control.defaultIncludeArchived);
      } else {
        frames := [];
      }
      notices := notices + [ModelReset];
    }

    /** findRow(id): the first row holding a frame with that id, or -1. */
    method FindRow(id: string) returns (r: int)
      ensures r == FirstIndexOf(frames, id)
    {
      var index := 0;
      while index < |frames|
        invariant 0 <= index <= |frames|
        invariant forall k :: 0 <= k < index ==> frames[k].id != id
      {
        if frames[index].id == id {
          return index;
        }
        index := index + 1;
      }
      return -1;
    }

    /**
      removeRows(row, count): refused, with nothing changed, when `row` or the
      block's last row lies past the end; otherwise announces the block and runs
      removeAt(row + i) for i below `count`.
    */
    method RemoveRows(row: int, count: int) returns (ok: bool)
      modifies this`frames, this`notices
      ensures ok == RemoveInBounds(|old(frames)|, row, count)
      ensures !ok ==> frames == old(frames) && notices == old(notices)
      ensures ok ==> (frames == RemovedAsWritten(old(frames), row, 0, count)
        && notices == old(notices) + [RowsRemoved(row, row + count - 1)])
    {
      if row >= |frames| || row + count - 1 >= |frames| {
        return false;
      }
      notices := notices + [RowsRemoved(row, row + count - 1)];
      var i := 0;
      while i < count
        modifies this`frames
        invariant i <= count || count < 0
        invariant RemovedAsWritten(frames, row, i, count) == RemovedAsWritten(old(frames), row, 0, count)
        decreases count - i
      {
        frames := RemoveAt(frames, row + i);
        i := i + 1;
      }
      return true;
    }

    /** onFrameRemoved(frameID, projectID): for the current project, the first frame with that id is removed if there is one. */
    method OnFrameRemoved(frameID: string, projectID: string)
      modifies this`frames, this`notices
      ensures var r := FirstIndexOf(old(frames), frameID);
        if projectID == currentProject.id && r >= 0
        then frames == RemoveAt(old(frames), r) && notices == old(notices) + [RowsRemoved(r, r)]
        else frames == old(frames) && notices == old(notices)
    {
      if projectID == currentProject.id {
        var row := FindRow(frameID);
        if row >= 0 {
          var removed := RemoveRows(row, 1);
        }
      }
    }

    /** onProjectUpdated(project): the frames are reloaded when the updated project is the current one. */
    method OnProjectUpdated(project: Project)
      modifies this`frames, this`currentProject, this`notices, control`issued
      ensures project != old(currentProject) ==>
        frames == old(frames) && currentProject == old(currentProject) && notices == old(notices)
        && control.issued == old(control.issued)
      ensures project == old(currentProject) ==> currentProject == project && notices == old(notices) + [ModelReset]
      ensures project == old(currentProject) && IsValid(project) ==>
        var args := FramesArgs(project.id, true, control.defaultIncludeArchived);
        control.issued == old(control.issued) + [args]
        && frames == ReadFrames(old(control.Answer(args)), control.parseJson)
      ensures project == old(currentProject) && !IsValid(project) ==> frames == [] && control.issued == old(control.issued)
    {
      if project == currentProject {
        LoadFrames(project);
      }
    }

    /**
      The connections the constructor makes: projectUpdated reaches
      onProjectUpdated, dataResetNeeded clears the table; no other signal of the
      controller is connected.
    */
    method Receive(e: Event)
      modifies this`frames, this`currentProject, this`notices, control`issued
      ensures e.DataResetNeeded? ==> (frames == [] && currentProject == NoProject
        && notices == old(notices) + [ModelReset] && control.issued == old(control.issued))
      ensures e.ProjectUpdated? && e.project == old(currentProject) ==>
        currentProject == old(currentProject) && notices == old(notices) + [ModelReset]
      ensures e.ProjectUpdated? && e.project == old(currentProject) && IsValid(e.project) ==>
        var args := FramesArgs(e.project.id, true, control.defaultIncludeArchived);
        control.issued == old(control.issued) + [args]
        && frames == ReadFrames(old(control.Answer(args)), control.parseJson)
      ensures e.ProjectUpdated? && e.project == old(currentProject) && !IsValid(e.project) ==>
        frames == [] && control.issued == old(control.issued)
      ensures !e.DataResetNeeded? && !(e.ProjectUpdated? && e.project == old(currentProject)) ==>
        frames == old(frames) && currentProject == old(currentProject) && notices == old(notices)
        && control.issued == old(control.issued)
    {
      if e.ProjectUpdated? {
        OnProjectUpdated(e.project);
      } else if e.DataResetNeeded? {
        LoadFrames(NoProject);
      }
    }

    /** rowCount(): one row per frame. */
    function RowCount(): (n: int)
      reads this
      ensures n == |frames|
    {
      |frames|
    }

    /** columnCount(): the seven columns. */
    function ColumnTotal(): (n: int)
      ensures n == |Columns|
    {
      ColumnCount
    }

    /**
      setData(index, value, role): refused for another role, an invalid index, the
      tags or duration column, and also for the start-date and project columns;
      for start, end and notes the change goes to the controller as an edit of
      that one frame, and only when it succeeds is the field written back and
      the cell announced.
    */
    method SetData(index: TableIndex, value: Variant, role: int) returns (ok: bool)
      requires role == EditRole && index.Cell? && index.column != ColTags && index.column != ColDuration
        ==> index.row < |frames|
      modifies this`frames, this`notices, control`issued, control`events
      ensures !(role == EditRole && index.Cell? && Writable(index.column)) ==>
        !ok && frames == old(frames) && notices == old(notices)
        && control.issued == old(control.issued) && control.events == old(control.events)
      ensures role == EditRole && index.Cell? && Writable(index.column) ==>
        var f := old(frames)[index.row];
        var args := EditFrameArgs([f.id], CellEdit(index.column, value));
        && control.issued == old(control.issued) + [args]
        && ok == IsSuccessful(old(control.Answer(args)))
        && control.events == old(control.events)
        && (ok ==> (frames == old(frames)[index.row := EditedFrame(f, index.column, value)]
              && notices == old(notices) + [DataChanged(index.row, index.column)]))
        && (!ok ==> frames == old(frames) && notices == old(notices))
    {
      if role != EditRole || !index.Cell? {
        return false;
      }
      var col := index.column;
      if col == ColTags || col == ColDuration {
        return false;
      }
      var frame := frames[index.row];
      var startTime := frame.startTime;
      var endTime := frame.stopTime;
      var notes := frame.notes;
      assert FrameIDs([frame]) == [frame.id];
      if col == ColStart {
        startTime := ToDateTime(value);
        assert CellEdit(col, value) == FrameEditOf(true, startTime, false, NullTime, false, "", false, "", false, false);
        ok := control.UpdateFrames([frame], true, startTime, false, NullTime, false, "", false, "", false, false);
      } else if col == ColEnd {
        endTime := ToDateTime(value);
        assert CellEdit(col, value) == FrameEditOf(false, NullTime, true, endTime, false, "", false, "", false, false);
        ok := control.UpdateFrames([frame], false, NullTime, true, endTime, false, "", false, "", false, false);
      } else if col == ColNotes {
        notes := ToText(value);
        assert CellEdit(col, value) == FrameEditOf(false, NullTime, false, NullTime, true, notes, false, "", false, false);
        ok := control.UpdateFrames([frame], false, NullTime, false, NullTime, true, notes, false, "", false, false);
      } else {
        ok := false;
      }
      if ok {
        frames := frames[index.row := frame.(startTime := startTime, stopTime := endTime, notes := notes)];
        notices := notices + [DataChanged(index.row, index.column)];
      }
    }
  }
}
