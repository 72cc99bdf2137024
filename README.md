# tom_ui core, modelled in Dafny

This project models the core of tom_ui, a Qt desktop front end for the `tom`
time-tracking command-line tool. The UI never keeps data of its own: every
query and every change runs `tom` with an argument list and reads what it prints.

The project models five source files:

- **TomControl**, the controller. It builds the argument lists and runs the tool. It parses the tool's output: the project listing, the status line, the projects-status table and the JSON frame list. It keeps a cache of projects keyed by id, the last status snapshot and the active project. It emits signals in a fixed order, and it answers from the cache whether a project is started, whether it is a child of another project and whether it has subprojects.
- **ProjectStatus**, the per-project time totals and the `ProjectsStatus` lookup over them.
- **FrameTableViewModel** (`.h` and `.cpp`), the frame table. It holds an ordered frame list and the current project. It covers row lookup and removal, reloading on signals, editability of cells, and `setData`, which writes an edit back only when the controller's update succeeded.
- **ProjectTreeModel**, the project forest. Roots are the projects without a parent. Below them come a project's children, in list order. It also covers tree navigation: `index`, `parent`, `rowCount`, `columnCount`, `flags` and `headerData`.

How the model is built:

- **The tool.** Its process is an oracle. `TomControl.respond(history, args)` is what running `args` reports, given the argument lists run before it.
- **State as fields.** `issued` records every argument list run. `events` records every emitted signal.
- **Contracts.** Each controller method states which commands it ran, what it returns, and the new cache, snapshot and signals. It states them through functions of the modules `Parsers`, `Arguments`, `ProjectCache` and `Activity`, and lemmas about those functions state what the source promises.
- **Qt behaviour assumed.** `Project::isValid` is read as "the id is not empty". Project and status equality are structural. A command succeeds exactly when its exit code is 0. `QList::removeAt` out of range changes nothing, as in Qt 5 before 5.15.

Module layout:

| file | module | models |
|---|---|---|
| wrappers.dfy | Wrappers | `Option` |
| text.dfy | Text | `QString::split` (empty parts kept or skipped), `join`, `QString::number`, `toLongLong` (with `QChar::isSpace` trimming) |
| data.dfy | Data | Project, Frame, TomStatus, CommandStatus, the JSON values, the controller's signals |
| project_status.dfy | ProjectStatuses | ProjectStatus.cpp |
| parsers.dfy | Parsers | the output parsing of TomControl.cpp |
| arguments.dfy | Arguments | the argument lists of TomControl.cpp, with readers that invert the edit commands |
| project_cache.dfy | ProjectCache | the project cache and the parent-link queries |
| activity.dfy | Activity | the status poll and the signal sequences |
| tom_control.dfy | Control | class `TomControl` |
| frame_table.dfy | FrameTable | FrameTableViewModel.h/.cpp, class `FrameTableViewModel` |
| project_tree.dfy | ProjectTree | ProjectTreeModel.cpp, class `ProjectTreeModel` |

## Model

| member | source | states |
|---|---|---|
| Data.ParseIsoDateTime | source/gotime/TomControl.cpp:167 | an empty text reads as the null time, any other text as that time |
| ProjectStatuses.ProjectsStatus.Get | source/gotime/ProjectStatus.cpp:29-34 | a mapped id gets its stored status, an unmapped id the default-constructed one |
| ProjectStatuses.ProjectsStatus.Size | source/gotime/ProjectStatus.cpp:36-38 | the size is the number of mapped ids |
| ProjectStatuses.ProjectsStatus.ProjectIDs | source/gotime/ProjectStatus.cpp:40-42 | the ids returned are exactly the mapped ones |
| ProjectStatuses.ProjectsStatus.OverallStatus | source/gotime/ProjectStatus.cpp:5 | the overall status is the one under "ALL", the default when "ALL" is not mapped |
| ProjectStatuses.EmptyStatusesDefaults | source/gotime/ProjectStatus.cpp:27-34 | a default-constructed lookup has size 0 and gives every id the default status |
| Text.ParseIntToString | source/gotime/TomControl.cpp:384-397 | `toLongLong` reads back every 64-bit value `QString::number` prints |
| Text.PaddedNumber | source/gotime/TomControl.cpp:384-397 | `toLongLong` ignores white space around the number: a value padded with blanks, or the last column of a CRLF line ending in `\r`, reads as that value |
| Text.TrimLeading | source/gotime/TomControl.cpp:384-397 | the result is a suffix of the text whose dropped characters are all white space and whose first character is not |
| Text.TrimTrailing | source/gotime/TomControl.cpp:384-397 | the result is a prefix of the text whose dropped characters are all white space and whose last character is not |
| Parsers.ParseProjectLine | source/gotime/TomControl.cpp:52-63 | a line yields a project exactly when it has four tab-separated fields; the name is field 0 split on "\|\|", then id, parent and hourly rate |
| Parsers.ProjectsOfLines | source/gotime/TomControl.cpp:52-63 | every project listed comes from a line that parses, and every line that parses gives a listed project |
| Parsers.ProjectsOfLinesConcat | source/gotime/TomControl.cpp:52-63 | the projects of two runs of lines are those of the first followed by those of the second, so the projects keep line order |
| Parsers.DroppedLineKeepsNeighbours | source/gotime/TomControl.cpp:55-62 | a line that does not parse is skipped, and the projects of the lines around it are listed in order |
| Parsers.ProjectLineRoundTrip | source/gotime/TomControl.cpp:52-63 | the line printed for a listable project parses back to that project |
| Parsers.ProjectLineNeedsFourFields | source/gotime/TomControl.cpp:55 | a line without exactly four fields is dropped |
| Parsers.ListingRoundTrip | source/gotime/TomControl.cpp:50-63 | a listing of listable projects parses back to the same projects in the same order |
| Parsers.ReadStatus | source/gotime/TomControl.cpp:151-170 | a failed command reads as "no timer"; a successful command with no non-empty line reads as "no timer"; the reading is malformed exactly when the first non-empty line lacks five fields; a five-field line gives a running timer whose project name is the second field split on `||`, whose id and parent are the third and fourth fields, whose start time is the fifth field, and whose hourly rate is empty |
| Parsers.StatusLineRoundTrip | source/gotime/TomControl.cpp:155-169 | the line printed for a running frame reads back as a valid status with that project, parent and start time |
| Parsers.StatusNeedsFiveFields | source/gotime/TomControl.cpp:157-161 | a first line without five fields is malformed |
| Parsers.RequestedColumns | source/gotime/TomControl.cpp:354-355 | the requested column list has 11 names, so 11 columns are expected |
| Parsers.ParseProjectListing | source/gotime/TomControl.cpp:50-63 | every project listed comes from a non-empty line of the output that parses, and every such line gives a listed project |
| Parsers.StatusOfRow | source/gotime/TomControl.cpp:382-400 | a row's status is keyed by column 0 and takes columns 1 to 10, in the order they are requested, as the day, week, month, year and overall tracked and total times; the yesterday totals are 0 |
| Parsers.StatusOfRowByPosition | source/gotime/TomControl.cpp:399-400 | the eleven values bound to the 13-argument ProjectStatus constructor by position: the day values land in the yesterday slots and the day totals are 0 |
| Parsers.PositionalLosesToday | source/gotime/ProjectStatus.cpp:7-20 | for a row whose day total is non-zero, the positional reading reports a day total of 0 and shows the day total as yesterday's |
| Parsers.StatusColumnList | source/gotime/TomControl.cpp:354 | the 11 column names joined by commas |
| Parsers.StatusColumnsSplit | source/gotime/TomControl.cpp:354-355 | the comma-joined column list splits back into the 11 requested names |
| Parsers.StatusesOfLines | source/gotime/TomControl.cpp:372-401 | an id is mapped exactly when some line of exactly 11 columns names it, and each entry carries its own id |
| Parsers.HasRowSnoc | source/gotime/TomControl.cpp:375-380 | one more line adds its id exactly when it has 11 columns |
| Parsers.StatusesLastWins | source/gotime/TomControl.cpp:399 | when several rows name one id, the last one is kept |
| Parsers.ReadProjectsStatus | source/gotime/TomControl.cpp:367-403 | a failed command gives an empty lookup; otherwise an id is mapped exactly when some accepted line of the output names it, with its own id, and the lookup is that of the lines |
| Parsers.FrameOf | source/gotime/TomControl.cpp:218-229 | a frame's id, project, start, stop and last-update times and notes come from the object's members of those names; the stop time is null exactly when the member is missing, not a string, or empty; tags are empty; archived defaults to false |
| Parsers.DecodeFrames | source/gotime/TomControl.cpp:212-230 | the frames are those of the leading objects of the array, in order; decoding stops at the first non-object |
| Parsers.ReadFrames | source/gotime/TomControl.cpp:196-231 | a failed command or output that is not an array gives no frames |
| Parsers.DecodeAllObjects | source/gotime/TomControl.cpp:212-230 | an array of objects gives one frame per item |
| Parsers.RunningFrameDecodes | source/gotime/TomControl.cpp:212-229 | a leading object without a stop time decodes to a running frame with its id |
| Parsers.CreatedProject | source/gotime/TomControl.cpp:445-456 | the created project's id and parent come from the JSON object and its name, element by element, from the `fullName` array, with no hourly rate |
| Arguments.OptionArgs | source/gotime/TomControl.cpp:282-296 | an unset option adds nothing, a set one adds its flag and its value |
| Arguments.ProjectsArgs | source/gotime/TomControl.cpp:39-45 | the listing command, with `--recent N` exactly when max > 0 |
| Arguments.RemoveFrameArgs | source/gotime/TomControl.cpp:486-487 | `remove frame` followed by the ids |
| Arguments.StartArgs | source/gotime/TomControl.cpp:92 | `start` followed by the project id |
| Arguments.RenameTagArgs | source/gotime/TomControl.cpp:240 | `rename tag` followed by the tag and its new name |
| Arguments.RemoveProjectArgs | source/gotime/TomControl.cpp:468 | `remove project` followed by the project id |
| Arguments.ImportArgs | source/gotime/TomControl.cpp:497-526 | `import`, the importer's name (macTimeTracker, fanurio or watson) and the file name |
| Arguments.CreateProjectArgs | source/gotime/TomControl.cpp:434-441 | `create project --output json name`, with `-p parent` exactly when a parent is given |
| Arguments.FramesArgs | source/gotime/TomControl.cpp:185-194 | the frames command asks for the id, project, start, stop, last-update and notes fields, with `--subprojects` exactly when asked for, and ends with the archived flag |
| Arguments.ProjectsStatusArgs | source/gotime/TomControl.cpp:357-365 | the status-projects command, with `--include-active` and `--show-overall id` exactly when asked for, and ending with the archived flag |
| Arguments.ArchiveFramesArgs | source/gotime/TomControl.cpp:658-662 | `frames archive --project id`, with `--include-subprojects` exactly when asked for |
| Arguments.FrameEditOf | source/gotime/TomControl.cpp:282-296 | each frame change is requested exactly when its flag is set, and then with the value given |
| Arguments.TakeOption | source/gotime/TomControl.cpp:282-293 | reading an option takes its flag and value off the front, or nothing |
| Arguments.TimeRoundTrip | source/gotime/TomControl.cpp:283-286 | a time passed as an edit argument reads back as that time |
| Arguments.TakeOptionArgs | source/gotime/TomControl.cpp:282-293 | an option's arguments read back as that option |
| Arguments.ArchivedTailReads | source/gotime/TomControl.cpp:294-297 | the archived flag and the ids at the end of `edit frame` read back as written |
| Arguments.EditFrameRoundTrip | source/gotime/TomControl.cpp:280-297 | `edit frame` reads back as the ids and exactly the requested changes: start, end, notes, project, archived, in that order |
| Arguments.ProjectEditOf | source/gotime/TomControl.cpp:326-334 | each project change is requested exactly when its flag is set, and then with the value given |
| Arguments.EditFrameArgs | source/gotime/TomControl.cpp:280-297 | `edit frame`, then the options, ending with the ids |
| Arguments.EditProjectArgs | source/gotime/TomControl.cpp:324-335 | `edit project`, then the options, ending with the ids |
| Arguments.EditProjectRoundTrip | source/gotime/TomControl.cpp:324-335 | `edit project` reads back as the ids and exactly the requested name, parent and hourly rate, in that order |
| Arguments.ProjectArgs | source/gotime/TomControl.cpp:580-584 | one `--project=id` per id, in order |
| Arguments.ReportArgs | source/gotime/TomControl.cpp:573-632 | the report command starts with `report` and ends with the rounding minutes, "0m" when not rounding |
| Arguments.ReportRoundTrip | source/gotime/TomControl.cpp:573-632 | a report list reads back as exactly the request htmlReport's parameters make: the output file, template, dates, title and description exactly when given, the splits joined by commas, every project id in order, the subprojects flag and the five switches, `--round-frames nearest\|up` exactly for those two modes, and the rounding minutes |
| Arguments.RoundModeWord | source/gotime/TomControl.cpp:615-626 | a word follows `--round-frames` exactly for the nearest and up modes |
| Arguments.ReportOptionsAssign | source/gotime/TomControl.cpp:575-613 | every option between `report` and the rounding arguments is a single `--name=value` word |
| Arguments.ReportRoundsIff | source/gotime/TomControl.cpp:615-626 | `--round-frames` is passed exactly when rounding to the nearest or up |
| ProjectCache.CacheOf | source/gotime/TomControl.cpp:26-32 | the cache's keys are exactly the listed ids, each holding a project with that id |
| ProjectCache.CacheOfLastWins | source/gotime/TomControl.cpp:29-31 | for a repeated id, the last listed project is kept |
| ProjectCache.Lookup | source/gotime/TomControl.cpp:544-546 | a cached id gives its project, an uncached one an invalid project |
| ProjectCache.Ancestry | source/gotime/TomControl.cpp:553 | the walk from an id visits nothing when the id is not cached, and otherwise starts at its cached project |
| ProjectCache.WalkStops | source/gotime/TomControl.cpp:553-557 | the walk meets the target or an invalid project within the given number of steps |
| ProjectCache.AcyclicWalkStops | source/gotime/TomControl.cpp:553-557 | on a cache free of cycles, every walk isChildProject starts stops |
| ProjectCache.IsDescendant | source/gotime/TomControl.cpp:548-559 | both ids non-empty and the parent met on the walk from the id |
| ProjectCache.AncestryStep | source/gotime/TomControl.cpp:553 | the walk from a cached project visits it and then walks on from its parent |
| ProjectCache.AncestryTrans | source/gotime/TomControl.cpp:553-557 | what is reached from a project reached from `a` is reached from `a` |
| ProjectCache.DescendantOfItself | source/gotime/TomControl.cpp:548-557 | a project counts as a child of itself exactly when it is cached and its id is not empty |
| ProjectCache.DescendantOfParent | source/gotime/TomControl.cpp:553-557 | a cached project is a child of its cached parent |
| ProjectCache.DescendantTrans | source/gotime/TomControl.cpp:548-559 | being a child project is transitive |
| ProjectCache.UncachedHasNoParents | source/gotime/TomControl.cpp:553 | an uncached id is nobody's child |
| ProjectCache.StartedAlone | source/gotime/TomControl.cpp:72-76 | without subprojects, a project is started exactly when it is valid and is the active one |
| ProjectCache.StartedIffAncestor | source/gotime/TomControl.cpp:72-89 | with subprojects, a cached project is started exactly when it is active or the active project is its child project |
| ProjectCache.StartedToAncestor | source/gotime/TomControl.cpp:77-86 | the recursion over children finds only ancestors of the active project |
| ProjectCache.AncestorToStarted | source/gotime/TomControl.cpp:77-86 | every ancestor of the active project is found by the recursion over children |
| ProjectCache.StartedChildMakesParentStarted | source/gotime/TomControl.cpp:77-86 | a parent with an active child has subprojects and is started |
| ProjectCache.Started | source/gotime/TomControl.cpp:72-89 | isStarted's recursion over the cached children |
| ProjectCache.HasChildren | source/gotime/TomControl.cpp:643-651 | some cached project names the id as its parent |
| Activity.Poll | source/gotime/TomControl.cpp:157-179 | a malformed line changes nothing and emits nothing; otherwise the snapshot and the active project are replaced, and at most statusChanged is emitted |
| Activity.PolledStatus | source/gotime/TomControl.cpp:158-181 | status() returns the snapshot read, or an invalid status for a malformed line |
| Activity.PollEmitsIffChanged | source/gotime/TomControl.cpp:173-179 | statusChanged is emitted exactly when a snapshot differing from the cached one is read |
| Activity.PollTwiceQuiet | source/gotime/TomControl.cpp:173-179 | a second identical poll emits nothing and changes nothing |
| Activity.StartEvents | source/gotime/TomControl.cpp:98-107 | started(p) and updated(p); then stopped(q) when a valid q was active; then updated(q) exactly when q is not the newly active project, and nothing more |
| Activity.RestartEmitsOneUpdate | source/gotime/TomControl.cpp:103-107 | restarting the active project emits no second update for it |
| Activity.FrameEditEvents | source/gotime/TomControl.cpp:301-313 | framesMoved exactly when both projects are given; framesUpdated exactly when only the current one is given; framesArchived exactly when the archived flag was updated, and then last; no other signal |
| Activity.ListUpdateNeverAnnouncesUpdate | source/gotime/TomControl.cpp:268-271 | the list overload never emits framesUpdated, and emits nothing without a target project or an archived change |
| Activity.UpdatedEvents | source/gotime/TomControl.cpp:342-347 | after a project edit, each emitted signal is the update of the valid cached project of some edited id, every edited id with a valid cached project is announced, and a single id gives its one update or nothing |
| Activity.UpdatedEventsConcat | source/gotime/TomControl.cpp:342-347 | the signals for a list of ids are those for its first part followed by those for the rest, so there is one per announced id, in the order of the ids |
| Control.TomControl.constructor | source/gotime/TomControl.cpp:7-16 | loads and caches the full listing, then polls once |
| Control.TomControl.Run | source/gotime/TomControl.cpp:406-431 | the result is the tool's answer to the command given the history, and exactly that command is recorded |
| Control.TomControl.CacheProjects | source/gotime/TomControl.cpp:26-32 | clears the cache, then refills it from the list |
| Control.TomControl.LoadProjects | source/gotime/TomControl.cpp:38-70 | a failed command gives no projects and keeps the cache; a full listing replaces the cache, a recent one leaves it |
| Control.TomControl.LoadRecentProjects | source/gotime/TomControl.cpp:34-36 | the same as loadProjects(max) |
| Control.TomControl.Status | source/gotime/TomControl.cpp:145-182 | one poll: the new snapshot, active project and signals are those of `Activity.Poll` |
| Control.TomControl.StartProject | source/gotime/TomControl.cpp:91-110 | on failure nothing changes; on success a poll follows, then the signals of `Activity.StartEvents` |
| Control.TomControl.CancelActivity | source/gotime/TomControl.cpp:112-124 | poll, then cancel; after a success with a running timer, a second poll, then cancelled and updated for the project polled first |
| Control.TomControl.StopActivity | source/gotime/TomControl.cpp:126-139 | poll, then clear the active project, then stop; after a success with a running timer, a second poll, then stopped and updated for the project polled first |
| Control.TomControl.CachedProject | source/gotime/TomControl.cpp:544-546 | the cached project for the id, or an invalid project |
| Control.TomControl.IsStarted | source/gotime/TomControl.cpp:72-89 | false for an invalid project; without subprojects, whether it is the active project, for any cache; with subprojects and cached, whether it is active or the active project is its child |
| Control.TomControl.IsChildProject | source/gotime/TomControl.cpp:548-559 | false when either id is empty; otherwise whether `parentID` is met walking cached parent links from `id` itself, for every cache on which that walk stops |
| Control.TomControl.HasSubprojects | source/gotime/TomControl.cpp:643-651 | whether some cached project names the project as its parent |
| Control.TomControl.CreateProject | source/gotime/TomControl.cpp:433-464 | on success the decoded project is cached under its id and announced; on failure nothing changes and the result is invalid |
| Control.TomControl.RemoveProject | source/gotime/TomControl.cpp:466-476 | on success the id leaves the cache and the removal is announced; on failure nothing changes |
| Control.TomControl.UpdateProjects | source/gotime/TomControl.cpp:318-351 | with no ids, or neither name nor parent edited, true without running anything; otherwise `edit project`, then on success a reload and an update signal per edited cached project |
| Control.TomControl.AnnounceUpdated | source/gotime/TomControl.cpp:342-347 | appends exactly `Activity.UpdatedEvents` of the reloaded cache and the ids |
| Control.TomControl.RenameProject | source/gotime/TomControl.cpp:234-236 | a project edit of the name alone |
| Control.TomControl.ProjectsStatus | source/gotime/TomControl.cpp:353-404 | runs the status-projects command with the 11 columns and reads its table |
| Control.TomControl.LoadFrames | source/gotime/TomControl.cpp:184-232 | runs the frames command and decodes its frames |
| Control.TomControl.UpdateFrame | source/gotime/TomControl.cpp:274-316 | runs `edit frame` for the flagged changes; on success emits `Activity.FrameEditEvents` |
| Control.TomControl.UpdateFrames | source/gotime/TomControl.cpp:246-272 | an empty list or frames of several projects are refused without running anything; otherwise edits the ids with the target project as the current one |
| Control.TomControl.HtmlReport | source/gotime/TomControl.cpp:561-637 | runs the report command and returns its output, whether or not it succeeded |
| Control.TomControl.ArchiveProjectFrames | source/gotime/TomControl.cpp:653-668 | nothing for an invalid project; otherwise archives and, on success, announces the project |
| Control.TomControl.RemoveFrames | source/gotime/TomControl.cpp:478-495 | runs `remove frame` for the ids; on success announces them against the first frame's project |
| Control.TomControl.ImportData | source/gotime/TomControl.cpp:497-528 | runs the import; on success announces a data reset |
| Control.TomControl.ResetAll | source/gotime/TomControl.cpp:530-538 | runs `remove all all`; on success announces a data reset |
| Control.TomControl.RenameTag | source/gotime/TomControl.cpp:238-244 | whether `rename tag` succeeded, with no signal |
| Control.FrameIDs | source/gotime/TomControl.cpp:257-266 | the frames' ids, in order |
| FrameTable.ColumnLayout | source/model/FrameTableViewModel.h:33-41 | the columns are 0 to 6 in the order start date, start, end, duration, tags, project, notes, and the count is COL_NOTES + 1 = 7 |
| FrameTable.HeaderTitle | source/model/FrameTableViewModel.cpp:74-93 | the titles Day, Start, End, Duration, Tags, Project, Notes for the seven columns, and none elsewhere |
| FrameTable.HeaderData | source/model/FrameTableViewModel.cpp:73-104 | nothing off the horizontal header; the column title for the display role; leading alignment for the day and start columns and trailing for the end and duration columns; nothing otherwise |
| FrameTable.HeaderTitlesDistinct | source/model/FrameTableViewModel.cpp:75-89 | no two columns share a title |
| FrameTable.IsEditable | source/model/FrameTableViewModel.cpp:205-211 | a valid index outside the duration, tags and project columns |
| FrameTable.WritableIsEditable | source/model/FrameTableViewModel.cpp:205-245 | every column setData can write is editable; the editable columns it refuses are the start date and unknown columns |
| FrameTable.CellEdit | source/model/FrameTableViewModel.cpp:229-245 | an edit requests exactly the edited field, with the converted value, and never a project or archived change |
| FrameTable.EditedFrame | source/model/FrameTableViewModel.cpp:247-250 | the edited field takes the value; every other field stays |
| FrameTable.RemoveAt | source/model/FrameTableViewModel.cpp:52 | removeAt takes out exactly the element at an index in range, and changes nothing out of range |
| FrameTable.RemovedAsWritten | source/model/FrameTableViewModel.cpp:51-53 | the removeAt(row + i) loop on the shrinking list |
| FrameTable.SingleRowAgrees | source/model/FrameTableViewModel.cpp:49-56 | removing one row within bounds removes exactly that row and keeps the rest in order |
| FrameTable.TwoRowsSkipOne | source/model/FrameTableViewModel.cpp:51-53 | removing rows 0 and 1 of four as written keeps the second and the fourth |
| FrameTable.AllRowsLeaveOne | source/model/FrameTableViewModel.cpp:51-53 | removing both rows of two as written keeps one row |
| FrameTable.RemovedBlock | source/model/FrameTableViewModel.cpp:44-56 | the intended removal keeps the rows before the block and shifts those after it |
| FrameTable.RepeatedRemoveAtRow | source/model/FrameTableViewModel.cpp:51-53 | removing at `row` `count` times removes the block |
| FrameTable.FirstIndexOf | source/model/FrameTableViewModel.cpp:256-265 | the index of the first frame with the id, or -1 exactly when no frame has it |
| FrameTable.FrameTableViewModel.constructor | source/model/FrameTableViewModel.cpp:9-14 | no frames and no project |
| FrameTable.FrameTableViewModel.LoadFrames | source/model/FrameTableViewModel.cpp:20-33 | the project becomes current; an invalid project empties the list without a command; a valid one loads its frames with subprojects |
| FrameTable.FrameTableViewModel.FindRow | source/model/FrameTableViewModel.cpp:256-265 | the first row with the id, or -1 |
| FrameTable.FrameTableViewModel.RemoveRows | source/model/FrameTableViewModel.cpp:44-57 | false with nothing changed when `row` or `row + count - 1` is at or past the end; otherwise true and the removeAt loop as written |
| FrameTable.FrameTableViewModel.OnFrameRemoved | source/model/FrameTableViewModel.cpp:35-42 | the list changes only for the current project and a found frame, and then loses exactly that row |
| FrameTable.FrameTableViewModel.OnProjectUpdated | source/model/FrameTableViewModel.cpp:59-63 | a reload exactly when the updated project is the current one |
| FrameTable.FrameTableViewModel.Receive | source/model/FrameTableViewModel.cpp:11-13 | projectUpdated for the current project reloads its frames with subprojects through the frames command, or empties the list for an invalid one; dataResetNeeded clears the table; other signals change nothing |
| FrameTable.FrameTableViewModel.RowCount | source/model/FrameTableViewModel.cpp:65-67 | one row per frame |
| FrameTable.FrameTableViewModel.ColumnTotal | source/model/FrameTableViewModel.cpp:69-71 | seven columns |
| FrameTable.FrameTableViewModel.SetData | source/model/FrameTableViewModel.cpp:213-254 | refused, with nothing changed, for another role, an invalid index or the tags, duration, start-date and project columns; otherwise edits that frame through the controller, and only on success writes the field back and announces the cell |
| ProjectTree.RowData | source/model/ProjectTreeModel.cpp:35-42 | an item's texts are the short name and the day, week and month totals of that project's status |
| ProjectTree.ChildrenOf | source/model/ProjectTreeModel.cpp:45-49 | every project found is in the list and names the id as its parent |
| ProjectTree.ChildrenOfComplete | source/model/ProjectTreeModel.cpp:45-49 | every project naming the id as its parent is found |
| ProjectTree.ChildrenOfSnoc | source/model/ProjectTreeModel.cpp:45-49 | the children keep list order |
| ProjectTree.Item | source/model/ProjectTreeModel.cpp:33-51 | the item carries its project and its row |
| ProjectTree.ItemsAt | source/model/ProjectTreeModel.cpp:45-49 | child items come one per child project, in order |
| ProjectTree.ItemShaped | source/model/ProjectTreeModel.cpp:33-51 | throughout the built item, every item's children are exactly its project's children, in list order |
| ProjectTree.ItemRows | source/model/ProjectTreeModel.cpp:35-42 | throughout the built item, every item carries its project's row |
| ProjectTree.RootShaped | source/model/ProjectTreeModel.cpp:25-31 | the root's children are exactly the projects with an empty parent, in list order, and the whole tree has that shape |
| ProjectTree.PathIsParentChain | source/model/ProjectTreeModel.cpp:25-49 | every item below the root sits on a chain of parent links from a project without a parent, so a project whose ancestors never reach an empty parent appears nowhere |
| ProjectTree.ProjectTreeModel.constructor | source/model/ProjectTreeModel.cpp:6-19 | the headers Name, Today, This week, This month over the tree of the listing |
| ProjectTree.ProjectTreeModel.RefreshProjects | source/model/ProjectTreeModel.cpp:25-31 | appends the items of the projects without a parent, in list order |
| ProjectTree.ProjectTreeModel.CreateModelItem | source/model/ProjectTreeModel.cpp:33-51 | the item built is the project's row over its children's items |
| ProjectTree.ProjectTreeModel.RowCount | source/model/ProjectTreeModel.cpp:145-157 | 0 under a column other than the first; otherwise the children of the root or of the indexed item |
| ProjectTree.ProjectTreeModel.RowCountCountsChildren | source/model/ProjectTreeModel.cpp:145-157 | the row count is the number of projects naming the item as their parent |
| ProjectTree.ProjectTreeModel.ColumnCount | source/model/ProjectTreeModel.cpp:53-59 | four columns for every item |
| ProjectTree.ProjectTreeModel.Index | source/model/ProjectTreeModel.cpp:112-129 | a valid index exactly when the row and column are in range, pointing at that child |
| ProjectTree.ProjectTreeModel.Parent | source/model/ProjectTreeModel.cpp:131-143 | invalid for the invalid index and for a child of the root; otherwise column 0 of the parent item |
| ProjectTree.ProjectTreeModel.ParentOfIndex | source/model/ProjectTreeModel.cpp:112-143 | the parent of a child index is the first column of the index it was made under |
| ProjectTree.ProjectTreeModel.Flags | source/model/ProjectTreeModel.cpp:85-91 | 0 exactly for the invalid index |
| ProjectTree.ProjectTreeModel.HeaderData | source/model/ProjectTreeModel.cpp:93-110 | nothing off the horizontal header; Name, Today, This week, This month for the display role; right alignment from the second column on and left for the first for the alignment role; nothing for other roles |
| ProjectTree.ProjectTreeModel.DisplayText | source/model/ProjectTreeModel.cpp:77-80 | the display text of a cell is the item's text in that column |

## Left out

- **Processes.** Starting the tool, the bash wrapper, time-outs and debug logging in `run` are not modelled; the tool is the `respond` oracle.
- **Polling.** The two-second timer is left out; a poll tick is a call to `Status`.
- **Qt's date and JSON code.** ISO-8601 parsing with time-zone offsets and JSON decoding are foreign code. A timestamp is its text, empty for the null time. JSON decoding is the `parseJson` parameter.
- **Timespan.** Only its milliseconds are modelled. The text of `formatShort` is the `formatShort` parameter of the tree model, and the `"0:00h"` colour rule that depends on it is not modelled.
- **Display roles.** Colours, alignment, locale date texts and durations in `data()` of both views are not modelled; `headerData` of both views is modelled with its alignment role, the leading and trailing alignments read as left and right.
- **Qt model notifications.** They are a log of resets, row removals and changed cells; what Qt's views do with them is not modelled.
- **Objects and pointers.** Frames are values. The frame table's own copy is what `setData` writes back; sharing `Frame` objects with other owners is not modelled. Tree items are values, and a model index is the path of rows to its item, standing for `internalPointer`.
- **Frame removal slots.** `onFramesRemoved` and `onFramesMoved` are declared in FrameTableViewModel.h, but no body is part of this model. The constructor connects `frameRemoved`, which TomControl never emits, so `OnFrameRemoved` is modelled and no event reaches it.
- **Unseen header defaults.** The `includeArchived` default of `loadFrames` is `TomControl.defaultIncludeArchived`. The default `max` of `loadProjects()` is taken as 0, a full listing.
- **Single-frame overload.** `setData` calls a single-frame `updateFrame` overload that is not in TomControl.cpp. It is modelled as the list overload on that one frame, with no project and no archived change.
- **ProjectStatus constructor.** The constructor takes 13 values, but `projectsStatus` passes 11. ProjectStatus.h, which may declare defaults, is not part of this model. See "## Findings".
- **Tree model dependencies.** ProjectTreeModel is written against `GotimeControl`, an older controller that is not part of this model. Its listing, status lookup and `formatShort` are constructor parameters. `Project::getShortName` is taken to be the last name segment. `ProjectTreeItem::columnCount`, `data` and `row` are taken to be the text count, the text at a column, and the row in the parent.
- **Getters.** `cachedStatus()`, `cachedProjects()` and `cachedActiveProject()` only read fields, and are not separate members.
- Control.TomControl.RemoveFrames: requires a non-empty list, because after a successful command the source reads the first project of the list.
- Control.TomControl.UpdateProjects: a request that changes only the hourly rate returns true and runs nothing, as the guard in the source reads; the model keeps this.
- Control.TomControl.IsStarted: with subprojects, for a valid project missing from the cache, the contract does not state the answer; the recursion then still looks at cached projects naming it as their parent.
- Control.TomControl.IsChildProject: requires the walk from `id` to meet `parentID` or an invalid project within as many steps as the cache holds. The source's loop does not end when the walk enters a cycle of parent links that does not pass `parentID`.
- Control.TomControl.IsStarted: with subprojects, requires the cache's parent links to be free of cycles. The source's recursion over children may not end on a cycle when no project on it is active; without subprojects it never recurses, and the model requires nothing.
- Text.ParseLongLong: white space is `Text.IsSpace`, the ASCII white space with NEL and no-break space. The other Unicode space separators that `QChar::isSpace` accepts are not modelled.
- ProjectTree.ProjectTreeModel.constructor: requires a bound on the depth of the listing's chains of children. The source recurses without end on a root whose empty id is also its own parent id, or on ids repeated along a chain.

## Findings

| source | as written | input that shows it | evidently intended | confidence | as-written member | corrected member |
|---|---|---|---|---|---|---|
| source/model/FrameTableViewModel.cpp:51-53 | `removeRows` calls `removeAt(row + i)` for i from 0 to count-1 on a list that shrinks at each step | four frames, `removeRows(0, 2)`: the first and third frames go, so the second and fourth are left; two frames, `removeRows(0, 2)`: only the first goes, yet the result is true | remove the `count` rows from `row` on, keeping the rest in order, as `beginRemoveRows(parent, row, row + count - 1)` announces | not executed | FrameTable.TwoRowsSkipOne | FrameTable.RepeatedRemoveAtRow |
| source/gotime/TomControl.cpp:399-400 | `ProjectStatus(id, all, allTotal, year, yearTotal, month, monthTotal, week, weekTotal, day, dayTotal)` calls a constructor whose 13 parameters end with yesterday, yesterdayTotal, day, dayTotal (ProjectStatus.cpp:7-20) | any accepted row whose third column, the day total, is non-zero: bound by position, day and dayTotal go into the yesterday slots and the day total reads 0 | the day values fill the day fields, as the names at the call site say | not executed; depends on defaults in ProjectStatus.h, which is not part of this model | Parsers.PositionalLosesToday | Parsers.StatusOfRow |

`FrameTable.FrameTableViewModel.RemoveRows` keeps the loop as written (`FrameTable.RemovedAsWritten`). The intended removal is `FrameTable.RemovedBlock`: calling `removeAt(row)` `count` times gives that removal. The only caller in this model, `onFrameRemoved`, removes one row, and `FrameTable.SingleRowAgrees` shows that both readings agree there.

For the status table, `Parsers.StatusOfRowByPosition` binds the eleven values by position, as C++ would if ProjectStatus.h declares no other constructor. `Parsers.PositionalLosesToday` shows that today's total then reads 0. The rest of the model reads rows with `Parsers.StatusOfRow`, which follows the names at the call site.
