/**
  What the controller does with a status poll, and the signal sequences its
  operations emit, as functions of the state before and after.
*/
module Activity {
  import opened Data
  import opened Parsers
  import opened ProjectCache

  /** The controller's timer state after a poll, and the signals the poll emitted. */
  datatype PollResult = PollResult(status: TomStatus, active: Project, emitted: seq<Event>)

  /**
    status(): a reading replaces the cached snapshot and the active project and
    emits statusChanged exactly when the snapshot differs from the cached one; a
    malformed line changes nothing and emits nothing.
  */
  function Poll(cached: TomStatus, active: Project, reading: StatusReading): (r: PollResult)
    ensures reading.Malformed? ==> r == PollResult(cached, active, [])
    ensures reading.Snapshot? ==> r.status == reading.status && r.active == reading.status.project
    ensures r.emitted == [] || r.emitted == [StatusChanged]
  {
    match reading
    case Malformed => PollResult(cached, active, [])
    case Snapshot(s) => PollResult(s, s.project, if s != cached then [StatusChanged] else [])
  }

  /** What status() returns: the snapshot read, or "no timer" for a malformed line. */
  function PolledStatus(reading: StatusReading): (s: TomStatus)
    ensures reading.Snapshot? ==> s == reading.status
    ensures reading.Malformed? ==> !s.isValid
  {
    if reading.Snapshot? then reading.status else NoStatus
  }

  /** A poll emits statusChanged exactly when it reads a snapshot that differs from the cached one. */
  lemma PollEmitsIffChanged(cached: TomStatus, active: Project, reading: StatusReading)
    ensures Poll(cached, active, reading).emitted == [StatusChanged] <==>
      reading.Snapshot? && reading.status != cached
  {
  }

  /** Reading the same thing twice emits nothing the second time and leaves the state as the first poll left it. */
  lemma PollTwiceQuiet(cached: TomStatus, active: Project, reading: StatusReading)
    ensures var first := Poll(cached, active, reading);
      var second := Poll(first.status, first.active, reading);
      second == PollResult(first.status, first.active, [])
  {
  }

  /**
    The signals of a successful startProject(p), after those of its poll:
    projectStarted(p) and projectUpdated(p); then, when a valid project q was
    active before, projectStopped(q), and projectUpdated(q) unless q is the
    project active after the poll.
  */
  function StartEvents(p: Project, stopped: Project, nowActive: Project): (es: seq<Event>)
    ensures |es| >= 2 && es[..2] == [ProjectStarted(p), ProjectUpdated(p)]
    ensures !IsValid(stopped) ==> |es| == 2
    ensures IsValid(stopped) ==> |es| >= 3 && es[2] == ProjectStopped(stopped)
    ensures |es| == 4 <==> IsValid(stopped) && stopped != nowActive
    ensures |es| == 4 ==> es[3] == ProjectUpdated(stopped)
    ensures IsValid(stopped) && stopped == nowActive ==> |es| == 3
    ensures |es| <= 4
  {
    [ProjectStarted(p), ProjectUpdated(p)]
      + (if IsValid(stopped)
         then [ProjectStopped(stopped)] + (if stopped != nowActive then [ProjectUpdated(stopped)] else [])
         else [])
  }

  /** Restarting the project that is already active, when the poll confirms it, emits no second update of it. */
  lemma RestartEmitsOneUpdate(p: Project)
    requires IsValid(p)
    ensures StartEvents(p, p, p) == [ProjectStarted(p), ProjectUpdated(p), ProjectStopped(p)]
  {
  }

  /**
    The signals of a successful updateFrame(ids, current, ..., projectID, ...):
    framesMoved when a target project is given and the current one is known,
    framesUpdated when only the current one is known, then framesArchived of
    the current project when the archived flag was updated.
  */
  function FrameEditEvents(ids: seq<string>, currentProjectID: string, projectID: string, updateArchived: bool): (es: seq<Event>)
    ensures FramesMoved(ids, currentProjectID, projectID) in es <==> projectID != "" && currentProjectID != ""
    ensures FramesUpdated(ids, currentProjectID) in es <==> projectID == "" && currentProjectID != ""
    ensures FramesArchived([currentProjectID]) in es <==> updateArchived
    ensures forall e :: e in es ==>
      e == FramesMoved(ids, currentProjectID, projectID) || e == FramesUpdated(ids, currentProjectID) || e == FramesArchived([currentProjectID])
    ensures |es| == (if currentProjectID != "" then 1 else 0) + (if updateArchived then 1 else 0)
    ensures updateArchived ==> es[|es| - 1] == FramesArchived([currentProjectID])
  {
    (if projectID != "" then (if currentProjectID != "" then [FramesMoved(ids, currentProjectID, projectID)] else [])
     else if currentProjectID != "" then [FramesUpdated(ids, currentProjectID)] else [])
      + (if updateArchived then [FramesArchived([currentProjectID])] else [])
  }

  /**
    The list overload passes its target project as the current one, so it never
    announces an update: it announces a move of the frames onto the project they
    are moved to, or nothing at all.
  */
  lemma ListUpdateNeverAnnouncesUpdate(ids: seq<string>, projectID: string, updateArchived: bool)
    ensures forall e :: e in FrameEditEvents(ids, projectID, projectID, updateArchived) ==> !e.FramesUpdated?
    ensures projectID == "" && !updateArchived ==> FrameEditEvents(ids, projectID, projectID, updateArchived) == []
  {
  }

  /**
    The projectUpdated signals that follow a successful project edit: one per
    edited id, in order, for each id the reloaded cache holds a valid project for.
  */
  function UpdatedEvents(c: Cache, ids: seq<string>): (es: seq<Event>)
    ensures |es| <= |ids|
    ensures forall e :: e in es ==> e.ProjectUpdated? && IsValid(e.project) && e.project in c.Values
    ensures forall k :: 0 <= k < |ids| && ids[k] in c && IsValid(c[ids[k]]) ==> ProjectUpdated(c[ids[k]]) in es
    ensures forall e :: e in es ==> exists k :: 0 <= k < |ids| && ids[k] in c && e == ProjectUpdated(c[ids[k]])
    ensures |ids| == 1 ==> es == (if ids[0] in c && IsValid(c[ids[0]]) then [ProjectUpdated(c[ids[0]])] else [])
  {
    if ids == [] then []
    else
      var init := UpdatedEvents(c, ids[..|ids| - 1]);
      var id := ids[|ids| - 1];
      assert forall k :: 0 <= k < |ids| - 1 ==> ids[..|ids| - 1][k] == ids[k];
      init + (if Lookup(c, id).id != "" then [ProjectUpdated(Lookup(c, id))] else [])
  }

  /** The signals for a list of ids are those for its first part followed by those for the rest: one per id, in the ids' order. */
  lemma {:induction false} UpdatedEventsConcat(c: Cache, a: seq<string>, b: seq<string>)
    ensures UpdatedEvents(c, a + b) == UpdatedEvents(c, a) + UpdatedEvents(c, b)
    decreases |b|
  {
    if b == [] {
      assert a + b == a;
    } else {
      var b' := b[..|b| - 1];
      var ab := a + b;
      assert ab[..|ab| - 1] == a + b';
      assert ab[|ab| - 1] == b[|b| - 1];
      UpdatedEventsConcat(c, a, b');
    }
  }
}
