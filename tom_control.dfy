/**
  TomControl: the controller that runs the external tool, keeps the project
  cache, the cached timer snapshot and the active project, and emits signals.

  The tool is an oracle: `respond(history, args)` is what running the tool with
  `args` reports after the argument lists of `history` have been run, so the
  tool's own state is whatever its past commands made it. `issued` records every
  argument list run, in order, and `events` every signal emitted, in order.
*/
module Control {
  import opened Wrappers
  import opened Text
  import opened Data
  import opened ProjectStatuses
  import opened Parsers
  import opened Arguments
  import opened ProjectCache
  import opened Activity

  class TomControl {
    /** What the tool reports for a command, given the commands run before it. */
    const respond: (seq<seq<string>>, seq<string>) -> CommandStatus
    /** QJsonDocument::fromJson (a text that does not parse decodes to JNull). */
    const parseJson: string -> Json
    /** The includeArchived default of loadFrames, declared in a header that is not part of this model. */
    const defaultIncludeArchived: bool

    var issued: seq<seq<string>>
    var cachedProjects: Cache
    var cachedStatus: TomStatus
    var activeProject: Project
    var events: seq<Event>

    /** Every cached project sits under its own id. */
    ghost predicate Valid()
      reads this
    {
      KeysMatch(cachedProjects)
    }

    /** What the tool would report for `args` if it ran now. */
    function Answer(args: seq<string>): CommandStatus
      reads this
    {
      respond(issued, args)
    }

    /** The poll a status() call would make now, from the given cached state. */
    function PollNow(history: seq<seq<string>>, cached: TomStatus, active: Project): PollResult
    {
      Poll(cached, active, ReadStatus(respond(history, StatusArgs)))
    }

    /** The constructor loads and caches the full project listing, then polls the status once. */
    constructor (respond: (seq<seq<string>>, seq<string>) -> CommandStatus, parseJson: string -> Json, defaultIncludeArchived: bool)
      ensures this.respond == respond && this.parseJson == parseJson && this.defaultIncludeArchived == defaultIncludeArchived
      ensures Valid()
      ensures issued == [ProjectsArgs(0), StatusArgs]
      ensures var st := respond([], ProjectsArgs(0));
        cachedProjects == if IsSuccessful(st) then CacheOf(ParseProjectListing(st.stdoutContent)) else map[]
      ensures var poll := PollNow([ProjectsArgs(0)], NoStatus, NoProject);
        cachedStatus == poll.status && activeProject == poll.active && events == poll.emitted
    {
      this.respond := respond;
      this.parseJson := parseJson;
      this.defaultIncludeArchived := defaultIncludeArchived;
      issued := [];
      cachedProjects := map[];
      cachedStatus := NoStatus;
      activeProject := NoProject;
      events := [];
      new;
      var listed := LoadProjects(0);
      assert issued == [ProjectsArgs(0)];
      ghost var poll := PollNow(issued, cachedStatus, activeProject);
      assert cachedStatus == NoStatus && activeProject == NoProject && events == [];
      var polled := Status();
      assert events == [] + poll.emitted;
    }

    /** run(args): one run of the tool; only the record of issued commands changes. */
    method Run(args: seq<string>) returns (st: CommandStatus)
      requires |args| > 0
      modifies this`issued
      ensures st == old(Answer(args))
      ensures issued == old(issued) + [args]
    {
      st := respond(issued, args);
      issued := issued + [args];
    }

    /** cacheProjects: the cache is replaced by the one the list builds. */
    method CacheProjects(projects: seq<Project>)
      modifies this`cachedProjects
      ensures cachedProjects == CacheOf(projects)
      ensures Valid()
    {
      cachedProjects := map[];
      var i := 0;
      while i < |projects|
        invariant 0 <= i <= |projects|
        invariant cachedProjects == CacheOf(projects[..i])
      {
        assert projects[..i + 1][..i] == projects[..i];
        cachedProjects := cachedProjects[projects[i].id := projects[i]];
        i := i + 1;
      }
      assert projects[..i] == projects;
    }

    /**
      loadProjects(max): the listed projects, or none when the command fails; a
      full listing (max <= 0) that succeeds replaces the cache, a recent one leaves it.
    */
    method LoadProjects(max: int) returns (result: seq<Project>)
      requires Valid()
      modifies this`issued, this`cachedProjects
      ensures Valid()
      ensures issued == old(issued) + [ProjectsArgs(max)]
      ensures var st := old(Answer(ProjectsArgs(max)));
        result == (if IsSuccessful(st) then ParseProjectListing(st.stdoutContent) else [])
        && cachedProjects == (if IsSuccessful(st) && max <= 0 then CacheOf(result) else old(cachedProjects))
    {
      var st := Run(ProjectsArgs(max));
      if !IsSuccessful(st) {
        return [];
      }
      result := ParseProjectListing(st.stdoutContent);
      if max <= 0 {
        CacheProjects(result);
      }
    }

    /** loadRecentProjects(max). */
    method LoadRecentProjects(max: int) returns (result: seq<Project>)
      requires Valid()
      modifies this`issued, this`cachedProjects
      ensures Valid()
      ensures issued == old(issued) + [ProjectsArgs(max)]
      ensures var st := old(Answer(ProjectsArgs(max)));
        result == (if IsSuccessful(st) then ParseProjectListing(st.stdoutContent) else [])
        && cachedProjects == (if IsSuccessful(st) && max <= 0 then CacheOf(result) else old(cachedProjects))
    {
      result := LoadProjects(max);
    }

    /**
      status(): one poll. The snapshot read replaces the cached one and the
      active project, and statusChanged is emitted when it differs; a malformed
      first line returns "no timer" and changes nothing.
    */
    method Status() returns (r: TomStatus)
      modifies this`issued, this`cachedStatus, this`activeProject, this`events
      ensures issued == old(issued) + [StatusArgs]
      ensures var poll := PollNow(old(issued), old(cachedStatus), old(activeProject));
        cachedStatus == poll.status && activeProject == poll.active && events == old(events) + poll.emitted
      ensures r == PolledStatus(ReadStatus(old(Answer(StatusArgs))))
    {
      var st := Run(StatusArgs);
      var reading := ReadStatus(st);
      if reading.Malformed? {
        return NoStatus;
      }
      var result := reading.status;
      var changed := cachedStatus != result;
      cachedStatus := result;
      activeProject := cachedStatus.project;
      if changed {
        events := events + [StatusChanged];
      }
      r := result;
    }

    /**
      startProject(project): on success, a poll and then the start signals:
      started and updated for the project, then stopped (and updated, unless it
      is still active) for the project that was active before.
    */
    method StartProject(project: Project) returns (success: bool)
      modifies this`issued, this`cachedStatus, this`activeProject, this`events
      ensures success == IsSuccessful(old(Answer(StartArgs(project.id))))
      ensures !success ==> (issued == old(issued) + [StartArgs(project.id)]
        && cachedStatus == old(cachedStatus) && activeProject == old(activeProject) && events == old(events))
      ensures success ==>
        var h := old(issued) + [StartArgs(project.id)];
        var poll := PollNow(h, old(cachedStatus), old(activeProject));
        issued == h + [StatusArgs] && cachedStatus == poll.status && activeProject == poll.active
        && events == old(events) + poll.emitted + StartEvents(project, old(activeProject), poll.active)
    {
      var st := Run(StartArgs(project.id));
      success := IsSuccessful(st);
      if success {
        var stopped := activeProject;
        var polled := Status();
        events := events + [ProjectStarted(project), ProjectUpdated(project)];
        if IsValid(stopped) {
          events := events + [ProjectStopped(stopped)];
          if stopped != activeProject {
            events := events + [ProjectUpdated(stopped)];
          }
        }
      }
    }

    /**
      cancelActivity(): a poll, then `cancel`; when it succeeds and a timer was
      running, a second poll and cancelled and updated for the project polled first.
    */
    method CancelActivity() returns (success: bool)
      modifies this`issued, this`cachedStatus, this`activeProject, this`events
      ensures var first := PollNow(old(issued), old(cachedStatus), old(activeProject));
        var active := PolledStatus(ReadStatus(old(Answer(StatusArgs))));
        var h := old(issued) + [StatusArgs, CancelArgs];
        && success == IsSuccessful(respond(old(issued) + [StatusArgs], CancelArgs))
        && (success && active.isValid ==>
              var second := PollNow(h, first.status, first.active);
              issued == h + [StatusArgs] && cachedStatus == second.status && activeProject == second.active
              && events == old(events) + first.emitted + second.emitted
                 + [ProjectCancelled(active.project), ProjectUpdated(active.project)])
        && (!(success && active.isValid) ==>
              issued == h && cachedStatus == first.status && activeProject == first.active
              && events == old(events) + first.emitted)
    {
      ghost var first := PollNow(issued, cachedStatus, activeProject);
      ghost var before := events;
      var active := Status();
      assert cachedStatus == first.status && activeProject == first.active && events == before + first.emitted;
      var st := Run(CancelArgs);
      assert issued == old(issued) + [StatusArgs, CancelArgs];
      success := IsSuccessful(st);
      if success && active.isValid {
        ghost var second := PollNow(issued, cachedStatus, activeProject);
        ghost var middle := events;
        var polled := Status();
        assert events == middle + second.emitted;
        events := events + [ProjectCancelled(active.project), ProjectUpdated(active.project)];
      }
    }

    /**
      stopActivity(): a poll, then the active project is cleared before `stop`
      runs, so it stays cleared when the command fails; when it succeeds and a
      timer was running, a second poll and stopped and updated for the project polled first.
    */
    method StopActivity() returns (success: bool)
      modifies this`issued, this`cachedStatus, this`activeProject, this`events
      ensures var first := PollNow(old(issued), old(cachedStatus), old(activeProject));
        var current := PolledStatus(ReadStatus(old(Answer(StatusArgs))));
        var h := old(issued) + [StatusArgs, StopArgs];
        && success == IsSuccessful(respond(old(issued) + [StatusArgs], StopArgs))
        && (success && current.isValid ==>
              var second := PollNow(h, first.status, NoProject);
              issued == h + [StatusArgs] && cachedStatus == second.status && activeProject == second.active
              && events == old(events) + first.emitted + second.emitted
                 + [ProjectStopped(current.project), ProjectUpdated(current.project)])
        && (!(success && current.isValid) ==>
              issued == h && cachedStatus == first.status && activeProject == NoProject
              && events == old(events) + first.emitted)
    {
      ghost var first := PollNow(issued, cachedStatus, activeProject);
      ghost var before := events;
      var current := Status();
      assert cachedStatus == first.status && events == before + first.emitted;
      activeProject := NoProject;
      var st := Run(StopArgs);
      assert issued == old(issued) + [StatusArgs, StopArgs];
      success := IsSuccessful(st);
      if success && current.isValid {
        ghost var second := PollNow(issued, cachedStatus, activeProject);
        ghost var middle := events;
        var polled := Status();
        assert events == middle + second.emitted;
        events := events + [ProjectStopped(current.project), ProjectUpdated(current.project)];
      }
    }

    /** cachedProject(id): the cached project, which carries that id, or an invalid one. */
    function CachedProject(id: string): (p: Project)
      reads this
      requires Valid()
      ensures IsValid(p) ==> p.id == id && p in cachedProjects.Values
      ensures id in cachedProjects ==> p == cachedProjects[id]
      ensures id !in cachedProjects ==> p == NoProject
    {
      Lookup(cachedProjects, id)
    }

    /**
      isStarted(project, includeSubprojects): false for an invalid project; without
      subprojects, whether it is the active project; with them, for a cached project,
      whether it is the active project or the active project is a child of it.
    */
    function IsStarted(project: Project, includeSubprojects: bool): (r: bool)
      reads this
      requires Valid() && (includeSubprojects ==> Acyclic(cachedProjects))
      ensures !IsValid(project) ==> !r
      ensures !includeSubprojects ==> (r <==> IsValid(project) && activeProject.id == project.id)
      ensures includeSubprojects && IsValid(project) && project.id in cachedProjects ==>
        (r <==> activeProject.id == project.id || IsDescendant(cachedProjects, activeProject.id, project.id))
    {
      if !includeSubprojects then
        IsValid(project) && activeProject.id == project.id
      else if IsValid(project) && project.id in cachedProjects then
        StartedIffAncestor(cachedProjects, activeProject.id, project);
        Started(cachedProjects, activeProject.id, project, true)
      else
        Started(cachedProjects, activeProject.id, project, true)
    }

    /** isChildProject(id, parentID): walks the cached parent links from `id` looking for `parentID`. */
    method IsChildProject(id: string, parentID: string) returns (r: bool)
      requires id == "" || parentID == "" || WalkStops(cachedProjects, Lookup(cachedProjects, id), parentID, |cachedProjects|)
      ensures r == IsDescendant(cachedProjects, id, parentID)
    {
      if id == "" || parentID == "" {
        return false;
      }
      var p := Lookup(cachedProjects, id);
      ghost var n: nat := |cachedProjects|;
      while IsValid(p)
        invariant WalkStops(cachedProjects, p, parentID, n)
        invariant parentID in Ancestry(cachedProjects, id) <==> parentID in ChainOf(cachedProjects, p, n)
        decreases n
      {
        if p.id == parentID {
          return true;
        }
        p := Lookup(cachedProjects, p.parentID);
        n := n - 1;
      }
      return false;
    }

    /** hasSubprojects(project): whether some cached project names the project's id as its parent. */
    method HasSubprojects(project: Project) returns (r: bool)
      ensures r == HasChildren(cachedProjects, project.id)
    {
      var rest := cachedProjects.Values;
      while rest != {}
        invariant rest <= cachedProjects.Values
        invariant forall p :: p in cachedProjects.Values && p !in rest ==> p.parentID != project.id
        decreases |rest|
      {
        var p :| p in rest;
        if p.parentID == project.id {
          return true;
        }
        rest := rest - {p};
      }
      return false;
    }

    /**
      createProject(parentID, name): on success the created project is cached
      under its id and announced; on failure nothing changes and the result is invalid.
    */
    method CreateProject(parentID: string, name: string) returns (p: Project)
      requires Valid()
      modifies this`issued, this`cachedProjects, this`events
      ensures Valid()
      ensures issued == old(issued) + [CreateProjectArgs(parentID, name)]
      ensures var st := old(Answer(CreateProjectArgs(parentID, name)));
        && (IsSuccessful(st) ==> (p == CreatedProject(parseJson(st.stdoutContent))
              && cachedProjects == old(cachedProjects)[p.id := p] && events == old(events) + [ProjectCreated(p)]))
        && (!IsSuccessful(st) ==> p == NoProject && cachedProjects == old(cachedProjects) && events == old(events))
    {
      var st := Run(CreateProjectArgs(parentID, name));
      if IsSuccessful(st) {
        p := CreatedProject(parseJson(st.stdoutContent));
        cachedProjects := cachedProjects[p.id := p];
        events := events + [ProjectCreated(p)];
      } else {
        p := NoProject;
      }
    }

    /** removeProject(project): on success the project's id leaves the cache and the removal is announced. */
    method RemoveProject(project: Project) returns (success: bool)
      requires Valid()
      modifies this`issued, this`cachedProjects, this`events
      ensures Valid()
      ensures issued == old(issued) + [RemoveProjectArgs(project.id)]
      ensures success == IsSuccessful(old(Answer(RemoveProjectArgs(project.id))))
      ensures success ==> cachedProjects == old(cachedProjects) - {project.id} && events == old(events) + [ProjectRemoved(project)]
      ensures !success ==> cachedProjects == old(cachedProjects) && events == old(events)
    {
      var st := Run(RemoveProjectArgs(project.id));
      success := IsSuccessful(st);
      if success {
        cachedProjects := cachedProjects - {project.id};
        events := events + [ProjectRemoved(project)];
      }
    }

    /** The loop after a successful project edit: projectUpdated for each edited id the reloaded cache holds. */
    method AnnounceUpdated(ids: seq<string>)
      requires Valid()
      modifies this`events
      ensures events == old(events) + UpdatedEvents(cachedProjects, ids)
    {
      ghost var before := events;
      var i := 0;
      while i < |ids|
        invariant 0 <= i <= |ids|
        invariant events == before + UpdatedEvents(cachedProjects, ids[..i])
      {
        assert ids[..i + 1] == ids[..i] + [ids[i]];
        UpdatedEventsConcat(cachedProjects, ids[..i], [ids[i]]);
        var p := CachedProject(ids[i]);
        if IsValid(p) {
          events := events + [ProjectUpdated(p)];
        }
        i := i + 1;
      }
      assert ids[..i] == ids;
    }

    /**
      updateProjects: succeeds without running anything when there are no ids or
      neither the name nor the parent is edited; otherwise runs `edit project`
      and, on success, reloads the cache and announces each edited project it holds.
    */
    method UpdateProjects(ids: seq<string>, updateName: bool, name: string, updateParent: bool, parentID: string,
                          updateHourlyRate: bool, hourlyRate: string) returns (success: bool)
      requires Valid()
      modifies this`issued, this`cachedProjects, this`events
      ensures Valid()
      ensures ids == [] || (!updateName && !updateParent) ==>
        success && issued == old(issued) && cachedProjects == old(cachedProjects) && events == old(events)
      ensures ids != [] && (updateName || updateParent) ==>
        var args := EditProjectArgs(ids, ProjectEditOf(updateName, name, updateParent, parentID, updateHourlyRate, hourlyRate));
        var h := old(issued) + [args];
        var listing := respond(h, ProjectsArgs(0));
        && success == IsSuccessful(old(Answer(args)))
        && (!success ==> issued == h && cachedProjects == old(cachedProjects) && events == old(events))
        && (success ==> (issued == h + [ProjectsArgs(0)]
              && cachedProjects == (if IsSuccessful(listing) then CacheOf(ParseProjectListing(listing.stdoutContent)) else old(cachedProjects))
              && events == old(events) + UpdatedEvents(cachedProjects, ids)))
    {
      if ids == [] || (!updateName && !updateParent) {
        return true;
      }
      var args := EditProjectArgs(ids, ProjectEditOf(updateName, name, updateParent, parentID, updateHourlyRate, hourlyRate));
      var st := Run(args);
      success := IsSuccessful(st);
      if success {
        var reloaded := LoadProjects(0);
        AnnounceUpdated(ids);
      }
    }

    /** renameProject(id, newName): a project edit of the name alone. */
    method RenameProject(id: string, newName: string) returns (success: bool)
      requires Valid()
      modifies this`issued, this`cachedProjects, this`events
      ensures Valid()
      ensures var args := EditProjectArgs([id], ProjectEdit(Some(newName), None, None));
        var h := old(issued) + [args];
        var listing := respond(h, ProjectsArgs(0));
        && success == IsSuccessful(old(Answer(args)))
        && (!success ==> issued == h && cachedProjects == old(cachedProjects) && events == old(events))
        && (success ==> (issued == h + [ProjectsArgs(0)]
              && cachedProjects == (if IsSuccessful(listing) then CacheOf(ParseProjectListing(listing.stdoutContent)) else old(cachedProjects))
              && events == old(events) + UpdatedEvents(cachedProjects, [id])))
    {
      success := UpdateProjects([id], true, newName, false, "", false, "");
    }

    /** projectsStatus(overallID, includeActive, includeArchived): the table the command reports, empty when it fails. */
    method ProjectsStatus(overallID: string, includeActive: bool, includeArchived: bool) returns (r: ProjectStatuses.ProjectsStatus)
      modifies this`issued
      ensures var args := ProjectsStatusArgs(StatusColumnList(), overallID, includeActive, includeArchived);
        issued == old(issued) + [args] && r == ReadProjectsStatus(old(Answer(args)))
    {
      var args := ProjectsStatusArgs(StatusColumnList(), overallID, includeActive, includeArchived);
      var st := Run(args);
      r := ReadProjectsStatus(st);
    }

    /** loadFrames(projectID, includeSubprojects, includeArchived): the frames of the listing. */
    method LoadFrames(projectID: string, includeSubprojects: bool, includeArchived: bool) returns (frames: seq<Frame>)
      modifies this`issued
      ensures var args := FramesArgs(projectID, includeSubprojects, includeArchived);
        issued == old(issued) + [args] && frames == ReadFrames(old(Answer(args)), parseJson)
    {
      var args := FramesArgs(projectID, includeSubprojects, includeArchived);
      var st := Run(args);
      frames := ReadFrames(st, parseJson);
    }

    /**
      updateFrame(ids, currentProjectID, ...): runs `edit frame` for the flagged
      changes and, on success, announces them against `currentProjectID` and `projectID`.
    */
    method UpdateFrame(ids: seq<string>, currentProjectID: string,
                       updateStart: bool, start: DateTime, updateEnd: bool, end: DateTime,
                       updateNotes: bool, notes: string, updateProject: bool, projectID: string,
                       updateArchived: bool, archived: bool) returns (success: bool)
      modifies this`issued, this`events
      ensures var args := EditFrameArgs(ids, FrameEditOf(updateStart, start, updateEnd, end, updateNotes, notes,
                                                        updateProject, projectID, updateArchived, archived));
        && issued == old(issued) + [args]
        && success == IsSuccessful(old(Answer(args)))
        && events == old(events) + (if success then FrameEditEvents(ids, currentProjectID, projectID, updateArchived) else [])
    {
      var args := EditFrameArgs(ids, FrameEditOf(updateStart, start, updateEnd, end, updateNotes, notes,
                                                 updateProject, projectID, updateArchived, archived));
      var st := Run(args);
      success := IsSuccessful(st);
      if success {
        if projectID != "" {
          if currentProjectID != "" {
            events := events + [FramesMoved(ids, currentProjectID, projectID)];
          }
        } else if currentProjectID != "" {
          events := events + [FramesUpdated(ids, currentProjectID)];
        }
        if updateArchived {
          events := events + [FramesArchived([currentProjectID])];
        }
      }
    }

    /**
      updateFrame(frames, ...): refuses an empty list and frames of more than one
      project without running anything; otherwise edits the frames' ids, passing
      the target `projectID` as their current project.
    */
    method UpdateFrames(frames: seq<Frame>,
                        updateStart: bool, start: DateTime, updateEnd: bool, end: DateTime,
                        updateNotes: bool, notes: string, updateProject: bool, projectID: string,
                        updateArchived: bool, archived: bool) returns (success: bool)
      modifies this`issued, this`events
      ensures frames == [] || !SameProject(frames) ==> !success && issued == old(issued) && events == old(events)
      ensures frames != [] && SameProject(frames) ==>
        var args := EditFrameArgs(FrameIDs(frames), FrameEditOf(updateStart, start, updateEnd, end, updateNotes, notes,
                                                                updateProject, projectID, updateArchived, archived));
        && issued == old(issued) + [args]
        && success == IsSuccessful(old(Answer(args)))
        && events == old(events) + (if success then FrameEditEvents(FrameIDs(frames), projectID, projectID, updateArchived) else [])
    {
      if frames == [] {
        return false;
      }
      var ids: seq<string> := [];
      var first := frames[0];
      var i := 0;
      while i < |frames|
        invariant 0 <= i <= |frames|
        invariant |ids| == i && forall k :: 0 <= k < i ==> ids[k] == frames[k].id
        invariant forall k :: 0 <= k < i ==> frames[k].projectID == first.projectID
      {
        if frames[i].projectID != first.projectID {
          return false;
        }
        ids := ids + [frames[i].id];
        i := i + 1;
      }
      assert ids == FrameIDs(frames);
      success := UpdateFrame(ids, projectID, updateStart, start, updateEnd, end, updateNotes, notes,
                             updateProject, projectID, updateArchived, archived);
    }

    /** htmlReport(...): the report the tool prints, whether or not it succeeded. */
    method HtmlReport(options: ReportOptions) returns (html: string)
      modifies this`issued
      ensures issued == old(issued) + [ReportArgs(options)]
      ensures html == old(Answer(ReportArgs(options))).stdoutContent
    {
      var st := Run(ReportArgs(options));
      html := st.stdoutContent;
    }

    /** archiveProjectFrames(project, includeSubprojects): nothing for an invalid project; announces the archived project on success. */
    method ArchiveProjectFrames(project: Project, includeSubprojects: bool)
      modifies this`issued, this`events
      ensures !IsValid(project) ==> issued == old(issued) && events == old(events)
      ensures IsValid(project) ==>
        var args := ArchiveFramesArgs(project.id, includeSubprojects);
        issued == old(issued) + [args]
        && events == old(events) + (if IsSuccessful(old(Answer(args))) then [FramesArchived([project.id])] else [])
    {
      if !IsValid(project) {
        return;
      }
      var st := Run(ArchiveFramesArgs(project.id, includeSubprojects));
      if IsSuccessful(st) {
        events := events + [FramesArchived([project.id])];
      }
    }

    /** removeFrames(frames): on success announces the removed ids against the first frame's project. */
    method RemoveFrames(frames: seq<Frame>) returns (success: bool)
      requires |frames| > 0
      modifies this`issued, this`events
      ensures issued == old(issued) + [RemoveFrameArgs(FrameIDs(frames))]
      ensures success == IsSuccessful(old(Answer(RemoveFrameArgs(FrameIDs(frames)))))
      ensures events == old(events) + (if success then [FramesRemoved(FrameIDs(frames), frames[0].projectID)] else [])
    {
      var ids: seq<string> := [];
      var i := 0;
      while i < |frames|
        invariant 0 <= i <= |frames|
        invariant |ids| == i && forall k :: 0 <= k < i ==> ids[k] == frames[k].id
      {
        ids := ids + [frames[i].id];
        i := i + 1;
      }
      assert ids == FrameIDs(frames);
      var st := Run(RemoveFrameArgs(ids));
      success := IsSuccessful(st);
      if success {
        events := events + [FramesRemoved(ids, frames[0].projectID)];
      }
    }

    /** importMacTimeTracker, importFanurioCSV, importWatsonFrames: on success, a reset of all data is announced. */
    method ImportData(kind: ImportKind, filename: string) returns (success: bool)
      modifies this`issued, this`events
      ensures issued == old(issued) + [ImportArgs(kind, filename)]
      ensures success == IsSuccessful(old(Answer(ImportArgs(kind, filename))))
      ensures events == old(events) + (if success then [DataResetNeeded] else [])
    {
      var st := Run(ImportArgs(kind, filename));
      success := IsSuccessful(st);
      if success {
        events := events + [DataResetNeeded];
      }
    }

    /** resetAll(): `remove all all`; on success, a reset of all data is announced. */
    method ResetAll()
      modifies this`issued, this`events
      ensures issued == old(issued) + [ResetAllArgs]
      ensures events == old(events) + (if IsSuccessful(old(Answer(ResetAllArgs))) then [DataResetNeeded] else [])
    {
      var st := Run(ResetAllArgs);
      if IsSuccessful(st) {
        events := events + [DataResetNeeded];
      }
    }

    /** renameTag(id, newName): whether `rename tag` succeeded; nothing is announced. */
    method RenameTag(id: string, newName: string) returns (success: bool)
      modifies this`issued
      ensures issued == old(issued) + [RenameTagArgs(id, newName)]
      ensures success == IsSuccessful(old(Answer(RenameTagArgs(id, newName))))
    {
      var st := Run(RenameTagArgs(id, newName));
      success := IsSuccessful(st);
    }
  }

  /** All frames of the list belong to the first frame's project. */
  predicate SameProject(frames: seq<Frame>)
  {
    forall k :: 0 <= k < |frames| ==> frames[k].projectID == frames[0].projectID
  }

  /** The ids of the frames, in order. */
  function FrameIDs(frames: seq<Frame>): (ids: seq<string>)
    ensures |ids| == |frames| && forall k :: 0 <= k < |frames| ==> ids[k] == frames[k].id
  {
    seq(|frames|, k requires 0 <= k < |frames| => frames[k].id)
  }
}
