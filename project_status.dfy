/**
  ProjectsStatus: the backend's per-project duration aggregates, looked up by
  project id, with a default aggregate for ids the backend did not report and
  the sentinel id "ALL" for the overall pseudo-project.
*/
module ProjectStatuses {

  /** A duration in milliseconds. */
  datatype Timespan = Timespan(millis: int)

  const Zero: Timespan := Timespan(0)

  /**
    The aggregates of one project. Plain fields count the project's own time,
    the Total fields include its subprojects.
  */
  datatype ProjectStatus = ProjectStatus(
    id: string,
    all: Timespan, allTotal: Timespan,
    year: Timespan, yearTotal: Timespan,
    month: Timespan, monthTotal: Timespan,
    week: Timespan, weekTotal: Timespan,
    yesterday: Timespan, yesterdayTotal: Timespan,
    day: Timespan, dayTotal: Timespan)

  /** ProjectStatus(): no id and every duration zero. */
  const DefaultStatus: ProjectStatus :=
    ProjectStatus("", Zero, Zero, Zero, Zero, Zero, Zero, Zero, Zero, Zero, Zero, Zero, Zero)

  /** ProjectStatus::OVERALL_ID. */
  const OverallID: string := "ALL"

  /** The lookup the controller hands to the views. */
  datatype ProjectsStatus = ProjectsStatus(mapping: map<string, ProjectStatus>)
  {
    /** ProjectsStatus::get: the stored aggregate, or the default one for an id that is not mapped. */
    function Get(projectID: string): (r: ProjectStatus)
      ensures projectID in mapping ==> r == mapping[projectID]
      ensures projectID !in mapping ==> r == DefaultStatus
    {
      if projectID in mapping then mapping[projectID] else DefaultStatus
    }

    /** ProjectsStatus::size: the number of mapped ids. */
    function Size(): (n: nat)
      ensures n == |ProjectIDs()|
    {
      |mapping|
    }

    /** ProjectsStatus::getProjectIDs: exactly the ids that are mapped. */
    function ProjectIDs(): (ids: set<string>)
      ensures forall id :: id in ids <==> id in mapping
    {
      mapping.Keys
    }

    /** ProjectsStatus::getOverallStatus: the aggregate stored under "ALL". */
    function OverallStatus(): (r: ProjectStatus)
      ensures r == Get(OverallID)
      ensures OverallID !in mapping ==> r == DefaultStatus
    {
      Get("ALL")
    }
  }

  /** ProjectsStatus(): nothing mapped. */
  const EmptyStatuses: ProjectsStatus := ProjectsStatus(map[])

  /** A default-constructed lookup maps nothing, so its size is 0 and every id gets the default aggregate. */
  lemma EmptyStatusesDefaults(id: string)
    ensures EmptyStatuses.Size() == 0
    ensures EmptyStatuses.Get(id) == DefaultStatus
  {
  }
}
