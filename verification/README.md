# Caribou project portal analytics, modelled in Dafny

This project models the analytics behind a caribou-recovery (CRP) project
dashboard. The dashboard reads project and resource records from an ArcGIS
feature service. The model covers three parts:

* **The PMBOK project viewer** (`archive/pmbok_project_viewer.py`).
  * Its per-project classifiers: days until due and the due-date badge,
    sorting by due date, the PMBOK phase, schedule performance, the risk
    level, the stakeholder register, the status category and its colour,
    and the team list.
  * The portfolio metrics.
  * The local status-override dictionary, with the save and reset buttons
    that edit it.
  * Splitting a Dendron note's front matter.
  * Modules: `Classifiers`, `Dates`, `Overrides`, `ProjectDetails` and
    `Viewer`. `Viewer.ProjectViewer` is a class whose `projects` and
    `overrides` fields its methods update in place.
* **The team engagement analyzer** (`enhanced_get_team_engagement.py`).
  `src/enhanced_get_team_engagement.py` is a byte-identical copy, so every
  line cited for the first holds for the second.
  * The CRP name filter.
  * Batched resource queries of ten project ids.
  * Crediting people with projects from resource rows, with a coordinator
    fallback for projects without rows.
  * Workload and role distributions.
  * The rankings.
  * The per-client analysis.
  * Configuration validation.
  * Module `Engagement`.
* **The ArcGIS query script** (`archive/enhanced_get_projects.py`).
  * Request parameters and the unwrapping of query replies.
  * The `where` clauses, with quote escaping and id lists.
  * The search for a coordinator's projects.
  * Grouping team members by project.
  * Attaching them to the project details.
  * The name filter of `main`.
  * The output file name.
  * Modules: `ProjectQuery` and `Clauses`.

Python values are modelled in `PyValues`:

* A field that may be missing is an `Option`.
* A duck-typed value is `Null | Int | Str`, with Python's truthiness.
* `str.strip`, `split`, `join`, `in` and `lower` are modelled on ASCII.

Record types are in `Records`. Dictionaries that keep insertion order are a
key sequence plus a map, in `Collections`, which also has:

* `Distinct`, the first-occurrence order of a sequence;
* counters;
* group-by;
* a stable insertion sort standing for Python's `sorted`.

Inputs that come from outside become parameters:

* **Clock:** the clock reading `now`, in epoch milliseconds.
* **Environment:** a map.
* **Whether the ArcGIS client initialised:** a boolean.
* **Query results:** each query is a value, or a function from the `where`
  clause to its outcome (`Rows(...)`, or `Raised` for an exception).
* **Saving the override file:** a boolean outcome.

## Model

| member | source | states |
|---|---|---|
| `Dates.FloorDays` | archive/pmbok_project_viewer.py:206-208 | `timedelta.days` of a millisecond span is its floor in days: `d` days fit below the span and `d + 1` do not |
| `Dates.DaysFromNow` | archive/pmbok_project_viewer.py:206-208 | the day count from `now` to a parsed date is the floor of the microsecond difference over one day |
| `Dates.Strptime` | archive/pmbok_project_viewer.py:186-198 | whatever `strptime` accepts is a valid calendar date and time (month, day in month, hour, minute, second, microsecond in range) |
| `Dates.CalculateDaysUntilDue` | archive/pmbok_project_viewer.py:172-212 | the loop over the five formats returns exactly the day count of the first format that parses the cut text, or none; an epoch value outside `datetime`'s range gives none |
| `Dates.FirstParseIsFirst` | archive/pmbok_project_viewer.py:195-201 | a successful parse comes from some format `k` and every format before `k` fails on the text |
| `Dates.FirstParseNone` | archive/pmbok_project_viewer.py:195-204 | the loop finds no date exactly when every format fails, which gives `None` |
| `Dates.EpochDueDays` | archive/pmbok_project_viewer.py:182-212 | a numeric due value gives a day count exactly when it lies in `datetime`'s range (the `ValueError` is caught), and that count is the floor of `(due - now)` in days |
| `Dates.TimestampBounds` | archive/pmbok_project_viewer.py:184 | the accepted epoch range runs from the first millisecond of ordinal day 1 to the last of 9999-12-31 |
| `Dates.NoDueDate` | archive/pmbok_project_viewer.py:175-178 | a missing, falsy or `'None'` due value gives no day count |
| `Dates.IsoDateRoundTrip` | archive/pmbok_project_viewer.py:188 | a date written `YYYY-MM-DD` parses back to that day at midnight with the first format |
| `Dates.IsoDueDays` | archive/pmbok_project_viewer.py:198 | a due text `YYYY-MM-DD` followed by a `T`-time, a space-time or nothing is due at midnight of that day |
| `Dates.CutAfterDate` | archive/pmbok_project_viewer.py:198 | splitting at the first `T` and then at the first space leaves exactly the date |
| `Dates.NextYear` | archive/pmbok_project_viewer.py:206-208 | the proleptic Gregorian day ordinal is continuous across a year boundary, so day differences are calendar differences |
| `Dates.NextMonth` | archive/pmbok_project_viewer.py:206-208 | the day ordinal is continuous across a month boundary |
| `Classifiers.DueColorBands` | archive/pmbok_project_viewer.py:245-258 | the badge is red exactly for `n <= 0`, yellow exactly for 1..7, blue exactly for 8..30 and green above 30; 0 gives 'Due today' in red; no day count gives 'No due date' in gray |
| `Classifiers.DueLabelCount` | archive/pmbok_project_viewer.py:249-256 | every label except 'Due today' is the decimal digits of `abs(n)` then ' days overdue' for a negative count or ' days left' otherwise, and those digits read back as `abs(n)` |
| `Classifiers.SortByDueDateSpec` | archive/pmbok_project_viewer.py:260-268 | the result is a permutation of the input, ordered by day count with undated projects last, and projects with equal keys keep their input order |
| `Classifiers.ProjectPhase` | archive/pmbok_project_viewer.py:287-309 | only an 'assigned' project can raise: a project with any other status returns a phase |
| `Classifiers.AssignedPhase` | archive/pmbok_project_viewer.py:287-309 | an 'assigned' project is planning exactly when it has no request date; a request date that is not a number raises `TypeError`, one out of range `ValueError`; otherwise it is initiating exactly when less than fifteen days have passed, and executing exactly when more have |
| `Classifiers.SchedulePerformance` | archive/pmbok_project_viewer.py:311-363 | when a result is returned, its SPI, if there is one, is a ratio with a positive denominator |
| `Classifiers.BehindScheduleUnreachable` | archive/pmbok_project_viewer.py:342-353 | the 'Behind Schedule' branch is dead: SPI below 0.9 implies the end date has passed, so 'Overdue' is taken first |
| `Classifiers.ScheduleBands` | archive/pmbok_project_viewer.py:311-363 | without both dates the result is 'Unknown' and gray; with both, a request date and then a required date that is not a number raises `TypeError`, one out of range `ValueError`; with both converted, red iff overdue iff the end date is past, yellow iff at risk iff 0..7 days remain, green iff on track iff more remain; the variance is the remaining day count |
| `Classifiers.TeamLength` | archive/pmbok_project_viewer.py:385 | the team size raises `TypeError` exactly when `Team_Members` has no length, and a missing field counts as empty |
| `Classifiers.RiskScore` | archive/pmbok_project_viewer.py:366-390 | the score raises `TypeError` exactly when `Team_Members` has no length; otherwise, whatever the schedule health, priority and team size, the accumulated risk score lies between 0 and 6 |
| `Classifiers.RiskLevelOf` | archive/pmbok_project_viewer.py:365-367 | the risk level raises exactly when the schedule performance raises, with the same exception, or when `Team_Members` has no length, with `TypeError` |
| `Classifiers.RiskBands` | archive/pmbok_project_viewer.py:365-397 | when the risk level is returned, its score is the score of the schedule health; high iff the score is at least 5 iff red; medium iff 3..4 iff yellow; low iff at most 2 iff green |
| `Classifiers.HighRiskNeeds` | archive/pmbok_project_viewer.py:365-397 | a high-risk project has a red or yellow schedule and urgent or high priority; an overdue urgent project is returned as high risk, or raises `TypeError` exactly when `Team_Members` has no length |
| `Classifiers.UndatedNormalIsLow` | archive/pmbok_project_viewer.py:365-397 | a project without both dates and without urgent or high priority scores at most 1 and is low risk; it raises only `TypeError`, exactly when `Team_Members` has no length |
| `Classifiers.ListsDisjoint` | archive/pmbok_project_viewer.py:41-98 | the status lists of distinct categories share no status |
| `Classifiers.ListedStatusCategory` | archive/pmbok_project_viewer.py:454-467 | each listed status falls in the category that lists it |
| `Classifiers.BlankStatus` | archive/pmbok_project_viewer.py:454-480 | an empty or all-whitespace status is 'not started' |
| `Classifiers.ListedOnly` | archive/pmbok_project_viewer.py:454-480 | a status reaches 'awaiting resources' or 'quality review' only when it is listed there verbatim (after stripping) |
| `Classifiers.InferredNeverListedOnly` | archive/pmbok_project_viewer.py:467-480 | the keyword fallback never yields 'awaiting resources' or 'quality review' |
| `Overrides.OriginalStatusIsFirst` | archive/pmbok_project_viewer.py:167 | the recorded original status is the status of the first project with that id key, or 'Unknown' when there is none |
| `Overrides.UpdateThenRead` | archive/pmbok_project_viewer.py:154-170 | after an update, the project with that key shows the new status; every other key and every other project's effective status is unchanged |
| `Overrides.ResetReverts` | archive/pmbok_project_viewer.py:1216-1219 | after the reset a project shows its source `Project_Status` again |
| `Viewer.ProjectViewer.constructor` | archive/pmbok_project_viewer.py:25-29 | the viewer holds the loaded project list and override dictionary |
| `Viewer.ProjectViewer.RefreshData` | archive/pmbok_project_viewer.py:126-130 | both lists are replaced by the reloaded ones and the count is the number of projects |
| `Viewer.ProjectViewer.UpdateProjectStatus` | archive/pmbok_project_viewer.py:161-170 | the dictionary becomes the old one with this key's entry written, projects are untouched, and the result is the save outcome |
| `Viewer.ProjectViewer.SaveStatus` | archive/pmbok_project_viewer.py:1201-1211 | an override is written iff the chosen status differs from the current one; otherwise the dictionary is unchanged |
| `Viewer.ProjectViewer.ResetStatus` | archive/pmbok_project_viewer.py:1216-1224 | the entry is removed iff it existed, and nothing else changes |
| `Viewer.ProjectViewer.GetProjectById` | archive/pmbok_project_viewer.py:271-276 | none iff no project has that raw id; otherwise the first project with that id |
| `Viewer.ProjectViewer.ProjectMetrics` | archive/pmbok_project_viewer.py:515-556 | no projects give `{}`; otherwise the exception of the first project the loop cannot count, or the portfolio counters over the projects' phases, risk levels and schedule healths |
| `Viewer.CountProjects` | archive/pmbok_project_viewer.py:530-546 | the loop calls the phase, risk and schedule classifiers project by project and stops with the first exception, a gray health raising `KeyError`; otherwise it gives the counters of all assessments |
| `Viewer.MetricsRaises` | archive/pmbok_project_viewer.py:530-546 | the metrics raise exactly when counting some project raises, and the exception is that of the first such project in list order |
| `Viewer.StepErrorCases` | archive/pmbok_project_viewer.py:530-541 | counting a project raises the `TypeError` or `ValueError` of its request date when it is assigned or has both dates, then that of its required date when it has both, then `TypeError` when `Team_Members` has no length; otherwise `KeyError` exactly when it lacks a date |
| `Viewer.CountersOfCounts` | archive/pmbok_project_viewer.py:531-546 | counting one by one gives the number of occurrences of each phase, level and health, and the numbers of late and due-soon projects |
| `Viewer.MetricsKeyError` | archive/pmbok_project_viewer.py:530-541 | when every set date is a timestamp in range and every `Team_Members` has a length, the metrics raise `KeyError` exactly when some project lacks one of its two dates (gray health has no counter) |
| `Viewer.MetricsConservation` | archive/pmbok_project_viewer.py:515-556 | only an empty portfolio gives `{}`; each counter family adds up to the number of projects; overdue, at-risk and on-track are the red, yellow and green counts and add up to the total |
| `Viewer.MetricsOfConservation` | archive/pmbok_project_viewer.py:527-556 | the same conservation, stated over any sequence of banded assessments |
| `Viewer.InCategoryMembers` | archive/pmbok_project_viewer.py:482-484 | a project is in the category list iff it is one of the projects and has that category |
| `Viewer.InCategorySize` | archive/pmbok_project_viewer.py:482-484 | the category list has as many entries as projects of that category |
| `Viewer.StatusSummaryCovers` | archive/pmbok_project_viewer.py:486-496 | the summary lists every category once, in order, each with exactly its projects and their count; the counts add up to the number of projects |
| `Viewer.StatusColorOfCategory` | archive/pmbok_project_viewer.py:498-513 | a bare status takes the colour class of its category, unless an override is stored under the empty key, which the bare record's missing id maps to |
| `ProjectDetails.TeamMembersList` | archive/pmbok_project_viewer.py:214-243 | the list is the collected candidates with repeats removed in first-occurrence order, or the default lead when there are none |
| `ProjectDetails.RemoveRepeats` | archive/pmbok_project_viewer.py:234-241 | the `seen` loop keeps the first occurrence of each name |
| `ProjectDetails.TeamListShape` | archive/pmbok_project_viewer.py:214-243 | the list is non-empty with no repeats, holds every collected name and nothing else besides the default, and starts with the lead when there is one |
| `ProjectDetails.OtherMembersStripped` | archive/pmbok_project_viewer.py:224-233 | every member name taken from a list or a comma-separated text is stripped and non-blank |
| `ProjectDetails.ClassifyStakeholders` | archive/pmbok_project_viewer.py:444-450 | the classification loop puts exactly the internal stakeholders, in order, on one side and the rest on the other |
| `ProjectDetails.StakeholderAnalysis` | archive/pmbok_project_viewer.py:399-452 | `TypeError` when `Team_Members` cannot be iterated; else `AttributeError` when it holds an element other than a record or is a non-empty text; else `TypeError` when `Client_Email` is set but not a string; otherwise the register is the client, the coordinator and the team, then the ministry, and internal and external filter it by the government email or a ministry role |
| `ProjectDetails.ClientEmail` | archive/pmbok_project_viewer.py:447 | the `in` test raises `TypeError` exactly when `Client_Email` is set to something other than a string, and reads `''` when it is missing |
| `ProjectDetails.StakeholderCounts` | archive/pmbok_project_viewer.py:399-452 | a register that is built has one primary entry per set client, the coordinator and each team member; internal and external together cover the register |
| `ProjectDetails.InternalStakeholders` | archive/pmbok_project_viewer.py:444-450 | when the register is built: with a government client email everyone is internal; otherwise exactly the ministry entry is |
| `ProjectDetails.ReadNote` | archive/pmbok_project_viewer.py:801-826 | the full content is the note; without a closing fence, or when the YAML parse fails, the body is the stripped note and there is no front matter |
| `ProjectDetails.ReadComposedNote` | archive/pmbok_project_viewer.py:811-823 | a note written as fence, front matter, closing fence and body, whose front matter parses, reads back as the stripped body with that front matter |
| `ProjectDetails.FrontMatterSplitReassembles` | archive/pmbok_project_viewer.py:811-818 | a successful split loses nothing: fence, front matter, closing fence and body give the note back |
| `ProjectDetails.FrontMatterRoundTrip` | archive/pmbok_project_viewer.py:811-818 | a note written as fence, front matter, closing fence and body splits back into that front matter and that body |
| `Engagement.FilterCrpProjects` | enhanced_get_team_engagement.py:89-95 | the loop keeps exactly the projects with a CRP name, in order |
| `Engagement.GetAllCrpProjects` | enhanced_get_team_engagement.py:72-103 | no client, no projects URL or a failed query gives `[]`; otherwise the CRP projects of the query |
| `Engagement.CrpFilterSpec` | enhanced_get_team_engagement.py:89-95 | a project is kept iff it is in the input and its name starts with 'CRP' or mentions 'Caribou' or 'caribou' |
| `Engagement.CrpNameCaseSensitive` | enhanced_get_team_engagement.py:91-93 | the test is case-sensitive: a name that does not start with 'CRP' and has no lower-case 'b' ('CARIBOU', 'crp survey') is not a CRP name |
| `Engagement.ExtractProjectIds` | enhanced_get_team_engagement.py:117-122 | the loop collects `str` of every truthy `Project_ID`, in order |
| `Engagement.BatchesCover` | enhanced_get_team_engagement.py:131-135 | the batches are consecutive slices of one to ten ids that concatenate to the id list, and there are `ceil(n / 10)` of them |
| `Engagement.FetchBatches` | enhanced_get_team_engagement.py:131-153 | the rows are those of each batch query in order; a batch that raises adds none |
| `Engagement.GetAllCrpResources` | enhanced_get_team_engagement.py:105-157 | the resources are the batched query results over the projects' ids, or `[]` without a client, projects, URL or ids |
| `Engagement.LookupProject` | enhanced_get_team_engagement.py:194 | the dictionary lookup finds a project with that id iff one exists, and of several it is the last |
| `Engagement.ResourceCredits` | enhanced_get_team_engagement.py:209-230 | there is one credit per resource row with a person and a project |
| `Engagement.UnfetchedProject` | enhanced_get_team_engagement.py:218-220 | a row whose project was not fetched is credited as 'Unknown Project' with status 'Unknown' |
| `Engagement.FirstTruthyIsFirst` | enhanced_get_team_engagement.py:243-247 | the coordinator found is the first truthy field value; every field before it is falsy |
| `Engagement.FindCoordinator` | enhanced_get_team_engagement.py:243-247 | the search loop returns the first truthy coordinator field, or none |
| `Engagement.FallbackCredits` | enhanced_get_team_engagement.py:234-262 | there is one fallback credit per project with an id, no valid rows and a coordinator |
| `Engagement.FallbackCreditsSpec` | enhanced_get_team_engagement.py:234-262 | every fallback credit has the role 'Coordinator (default)' and goes to the first set coordinator field of a project without rows |
| `Engagement.NoFallbackWithRows` | enhanced_get_team_engagement.py:238 | a project with valid resource rows never gets the fallback |
| `Engagement.CreditResources` | enhanced_get_team_engagement.py:209-230 | the first loop's engagement is the fold of the resource credits, and its id set is the projects of the valid rows |
| `Engagement.CreditFallbacks` | enhanced_get_team_engagement.py:234-262 | the second loop adds exactly the fallback credits to the engagement |
| `Engagement.EngagementByPerson` | enhanced_get_team_engagement.py:198-262 | the engagement is the fold of the resource credits followed by the fallback credits |
| `Engagement.AnalyzeEngagementData` | enhanced_get_team_engagement.py:159-280 | the result is the summary of the credits, or the error results without a client or without CRP projects |
| `Engagement.AnalysisOutcomes` | enhanced_get_team_engagement.py:166-280 | without a client, or without CRP projects, the report is the matching error with an empty summary and zero counts; otherwise no error, `total_projects` is the number of CRP projects and `total_people` counts each person once |
| `Engagement.EngagementGrouped` | enhanced_get_team_engagement.py:198-262 | the engagement groups the credits by person: people in order of first credit, each with exactly their own entries in order |
| `Engagement.PersonConsistent` | enhanced_get_team_engagement.py:220-230 | a person's total is their number of entries, the status counts add up to it, and the roles are exactly the entries' roles |
| `Engagement.EngagementConservation` | enhanced_get_team_engagement.py:198-280 | every person is listed once and has data, and the totals over people add up to the number of credits |
| `Engagement.CreditsCount` | enhanced_get_team_engagement.py:209-262 | the credits number the valid resource rows plus the projects that need the fallback |
| `Engagement.WorkloadDistribution` | enhanced_get_team_engagement.py:382-401 | the buckets appear in order of first use, each with the number of people in it |
| `Engagement.BucketLabelled` | enhanced_get_team_engagement.py:388-397 | every total falls in one of the five labelled buckets |
| `Engagement.WorkloadTotals` | enhanced_get_team_engagement.py:382-401 | only the five labels appear, each with a positive count, and the counts add up to the number of people |
| `Engagement.RoleDistribution` | enhanced_get_team_engagement.py:403-416 | the role counter counts each person's role class under three fixed keys |
| `Engagement.RoleTotals` | enhanced_get_team_engagement.py:403-416 | the three keys are always present and their counts add up to the number of people |
| `Engagement.FallbackOnlyIsOther` | enhanced_get_team_engagement.py:409-414 | a person credited only by the fallback ('Coordinator (default)') counts as 'Other', never 'Coordinator' |
| `Engagement.TopByCountSize` | enhanced_get_team_engagement.py:418-424 | the ranking has `min(limit, n)` entries for a non-negative limit, all taken from the input |
| `Engagement.TopByCountOrdered` | enhanced_get_team_engagement.py:418-424 | the ranking is in non-increasing order of total projects |
| `Engagement.TopByCountStable` | src/enhanced_get_team_engagement.py:521-525 | entries with equal counts keep their input order, as Python's stable sort does also in reverse |
| `Engagement.ValidateConfiguration` | enhanced_get_team_engagement.py:426-441 | the missing variables are exactly the required ones that are unset, the configuration is valid iff that list is empty iff every required one is set, and client availability is passed through |
| `Engagement.ClientEngagementLoop` | src/enhanced_get_team_engagement.py:462-497 | the per-client loop builds the summary of the projects with a client, in order |
| `Engagement.ClientsGrouped` | src/enhanced_get_team_engagement.py:462-497 | the client summary groups the counted projects by client, clients in order of first project |
| `Engagement.ClientsListed` | src/enhanced_get_team_engagement.py:462-497 | every client is listed once and has data, and that data is exactly its own projects in order |
| `Engagement.ClientConservation` | src/enhanced_get_team_engagement.py:462-508 | the client totals add up to the number of projects with a client, at most the number of CRP projects |
| `Engagement.ClientConsistent` | src/enhanced_get_team_engagement.py:471-497 | a client's total is its number of projects and its status counts add up to it |
| `Engagement.AnalyzeClientEngagement` | src/enhanced_get_team_engagement.py:443-519 | the report is the client summary of the CRP projects, or the error result when there are none |
| `ProjectQuery.Attributes` | archive/enhanced_get_projects.py:131 | the attributes are present iff every feature has them, and then they are those of each feature in order |
| `ProjectQuery.QueryLayer` | archive/enhanced_get_projects.py:104-134 | rows only come from a reply without an error; a reply without features gives no rows; otherwise one row per feature |
| `ProjectQuery.MakeParams` | archive/enhanced_get_projects.py:74-85 | the parameters are the given ones plus `f=json`, `outFields=*` and the token when one is set; every other key is unchanged |
| `ProjectQuery.QueryRequest` | archive/enhanced_get_projects.py:118-128 | a query request carries its clause and record count, asks for JSON with every field, and has a token iff one is set |
| `ProjectQuery.SearchResourcesByName` | archive/enhanced_get_projects.py:168-198 | the search returns the distinct ids of the query named by the escaped clause |
| `ProjectQuery.CollectIds` | archive/enhanced_get_projects.py:187-189 | the loop collects `str` of each truthy `Resource_Project_ID`, in order |
| `ProjectQuery.SearchIdsSpec` | archive/enhanced_get_projects.py:168-198 | each id is returned once, exactly the ids of the rows the query returned; a failed query gives none |
| `ProjectQuery.NameClauseQuotesName` | archive/enhanced_get_projects.py:177-179 | the escaped literal reads back as the name, and no quote in it ends the literal early |
| `ProjectQuery.GetProjectTeamMembers` | archive/enhanced_get_projects.py:201-250 | the result is the grouping of the team query's rows, or `{}` for no ids or a failed query |
| `ProjectQuery.GroupTeam` | archive/enhanced_get_projects.py:229-242 | the grouping loop builds the group-by of the rows with a project id |
| `ProjectQuery.TeamGrouping` | archive/enhanced_get_projects.py:229-245 | keys are the ids with rows, each once, in first-appearance order; each group holds its rows in input order; group sizes add up to the rows with an id |
| `ProjectQuery.RowsForSpec` | archive/enhanced_get_projects.py:231-242 | a project's group is the members of exactly the rows with that truthy id |
| `ProjectQuery.ProjectDetails` | archive/enhanced_get_projects.py:253-280 | no ids gives `[]` without a query, and a failed query gives `[]` |
| `ProjectQuery.ClausesNameIds` | archive/enhanced_get_projects.py:266-270 | the detail and team clauses quote exactly the given ids, in order, when no id contains a quote |
| `ProjectQuery.AttachTeamMembers` | archive/enhanced_get_projects.py:371-376 | each array slot becomes its project with the team of its id attached, or an empty list |
| `ProjectQuery.AttachedSpec` | archive/enhanced_get_projects.py:371-376 | after attachment a project has a `Team_Members` list, its own group or empty; nothing else changes; attaching twice is attaching once |
| `ProjectQuery.FilterProjects` | archive/enhanced_get_projects.py:378-387 | the loop keeps exactly the projects passing the name test, in order |
| `ProjectQuery.FilterProjectsSpec` | archive/enhanced_get_projects.py:378-387 | a project is kept iff it is in the list and its name passes the test |
| `ProjectQuery.MainCrpNameIsCrpName` | archive/enhanced_get_projects.py:380-386 | the 'Caribou'/'caribou' prefixes add nothing; the test is the analyzer's CRP test or a 'crp' prefix |
| `ProjectQuery.SafeFilename` | archive/enhanced_get_projects.py:422 | same length; each character is kept iff it is alphanumeric, space, '-' or '_', else it becomes '_' |
| `ProjectQuery.OutputFile` | archive/enhanced_get_projects.py:422-423 | the file name is `projects_for_` plus one character per name character plus `.json`, made of letters, digits, '-', '_' and '.' only |
| `ProjectQuery.ProjectsForResource` | archive/enhanced_get_projects.py:348-426 | `main`'s path stops without a name, without ids, without details or without matching projects, and otherwise saves the filtered projects |
| `ProjectQuery.AttachAndFilter` | archive/enhanced_get_projects.py:371-387 | the saved list is the attached projects filtered by the name test |
| `ProjectQuery.SavedProjects` | archive/enhanced_get_projects.py:371-423 | every saved project passes the name test and has a team list, at least one is saved, and the file name has no spaces |
| `ProjectQuery.FilteredAttached` | archive/enhanced_get_projects.py:371-387 | each kept project is one of the details with its team attached |
| `Clauses.Escape` | archive/enhanced_get_projects.py:177 | escaping doubles each quote: the length grows by the number of quotes |
| `Clauses.UnescapeEscape` | archive/enhanced_get_projects.py:177 | reading the literal back gives the original name |
| `Clauses.EscapedQuotesPaired` | archive/enhanced_get_projects.py:177-179 | quotes in the escaped text come in adjacent pairs, so none ends the literal |
| `Clauses.IdClauseQuotes` | enhanced_get_team_engagement.py:137-141 | with no quote in the field or the ids, the quoted texts of a `=`/`IN` clause are exactly the ids, in order |

## Left out

- **I/O:** reading and writing JSON files, the Dendron vault, the NiceGUI
  pages and every `print` are not modelled.
  - A save is a boolean outcome.
  - A note is its text.
  - Whether the YAML parser accepts the front matter is a boolean.
  - The parsed YAML itself is represented by its text.
- **Network:** HTTP requests, token generation, `get_service_info`,
  `find_matching_field` and `validate_service_url` are not modelled. Each
  query's reply or outcome is an input.
- **Environment and start-up:**
  - `.env` loading and `os.getenv` become a map.
  - Client initialisation through `importlib` becomes a boolean.
  - The environment and service checks at the start of `main` are not
    modelled.
- **Clock and time zone:**
  - `datetime.now()` becomes `now`, epoch milliseconds read on the same local
    clock as the dates.
  - `fromtimestamp`'s local-time conversion is not modelled.
  - Leap seconds beyond `%S` admitting 60 are not modelled.
- **Floating point:**
  - The SPI is an exact rational.
  - `round(...)` and display percentages are not modelled.
  - Epoch dates are integers.
- **String semantics:** `str.lower`, `str.strip`, `str.isalnum` and
  `split()` are ASCII only.
- **Values:** values of a type the source does not expect in a string field
  are excluded by the record types (`Project_Name`, `Project_Status`,
  `Priority_Level`). In Python a null or a number there raises
  `AttributeError` at the string method call. For `Project_Name`,
  `get_all_crp_projects` catches it (enhanced_get_team_engagement.py:92,
  101-103), so one such name empties the CRP list and the analysis reports
  no CRP/Caribou projects; in the query script's `main` it ends the run
  through the outer `except` (archive/enhanced_get_projects.py:380-381,
  429) and nothing is saved. For `Project_Status`, `get_project_phase`
  raises (archive/pmbok_project_viewer.py:289). The date fields,
  `Client_Email` and `Team_Members` do take any value, and their exceptions
  are modelled: `Team_Members` may be a value without a length (a
  `TypeError` at archive/pmbok_project_viewer.py:385 and 426), a list
  element may be neither a name nor a record, and a record may lack its
  name ('Unknown' at line 428); a `Client_Email` that is not a string
  raises `TypeError` at the `in` test (line 447). A dictionary as
  `Team_Members` is not modelled.
- **Dead code:** the statements after `analyze_engagement_data`'s final
  `return` (enhanced_get_team_engagement.py:282-369) can never run and are
  not modelled. The same holds for the second `return` of
  `sort_projects_by_due_date` (archive/pmbok_project_viewer.py:269).
- **Display-only code:** `format_date`, the Dendron note creation helpers,
  `get_dendron_integration_status` and the page layout produce display text
  only and are not modelled.
- **Status categories:** the viewer defines eight status categories. The
  model follows that table (pmbok_project_viewer.py:41-98).
- ProjectQuery.SearchResourcesByName: `list(set(ids))` has an unspecified
  order. The method returns the ids in first-occurrence order, which is one
  of the orders `list(set(...))` may produce; `SearchIdsSpec` states only
  what holds for every order: each id occurs once and the id set is exact.
  The roles of a person in the engagement result are modelled as a set, so
  the order of `list(roles)` is not modelled.
- Classifiers.SchedulePerformance: the contract states only the positive SPI
  denominator. The bands are stated by `ScheduleBands` and
  `BehindScheduleUnreachable`.
- Dates.FromTimestamp: the range check is made in UTC. In local time the
  bounds shift by the zone offset. A timestamp beyond the platform's
  `time_t` raises `OverflowError` or `OSError` in Python, where the model
  says `ValueError`; every caller handles them alike.
- Engagement.ValidateConfiguration: the contract states which variables are missing, not that they keep the declared order (the body filters the declared list in order).
- Dates.Strptime: the matcher covers the directives the five formats use
  (`%Y %m %d %H %M %S %f`) and nothing else of `strptime`.
