/**
 * The command-line query client that lists the projects of one coordinator:
 * the name search over the resource table, the project-detail and
 * team-member look-ups, the attachment of team members to the projects, the
 * CRP/Caribou name filter and the name of the output file; with the
 * response unwrapping and request parameters of its REST client.
 *
 * The HTTP round trip is not modelled: each look-up is a function from the
 * `where` clause sent to the outcome of that request, and the reply of a
 * request is an input.
 */
module ProjectQuery {
  import opened PyValues
  import opened Records
  import opened Collections
  import opened Clauses
  import Engagement

  // ------------------------------------------------------------ the client

  /** The parsed JSON of a reply: whether it has an 'error' key, and its 'features', each with or without 'attributes'. */
  datatype Reply<T> = Reply(hasError: bool, features: Option<seq<Option<T>>>)

  /** `[feature['attributes'] for feature in features]`; a feature without attributes raises. */
  function Attributes<T>(features: seq<Option<T>>): (r: Option<seq<T>>)
    ensures r.Some? <==> forall k :: 0 <= k < |features| ==> features[k].Some?
    ensures r.Some? ==> (|r.value| == |features|
                         && forall k :: 0 <= k < |features| ==> r.value[k] == features[k].value)
  {
    if features == [] then Some([])
    else
      match Attributes(features[..|features| - 1])
      case None => None
      case Some(prefix) =>
        match features[|features| - 1]
        case None => None
        case Some(last) => Some(prefix + [last])
  }

  /**
   * What `query_layer` gives its caller: `None` is a request that failed
   * or a body that is not JSON (re-raised by `_make_request`); a reply with
   * an 'error' key raises; a reply without 'features' gives no rows.
   */
  function QueryLayer<T>(reply: Option<Reply<T>>): (r: QueryOutcome<T>)
    ensures r.Rows? ==> reply.Some? && !reply.value.hasError
    ensures reply.Some? && !reply.value.hasError && reply.value.features.None? ==> r == Rows([])
    ensures r.Rows? && reply.value.features.Some? ==>
              (|r.rows| == |reply.value.features.value|
               && forall k :: 0 <= k < |r.rows| ==> Some(r.rows[k]) == reply.value.features.value[k])
  {
    match reply
    case None => Raised
    case Some(Reply(hasError, features)) =>
      if hasError then Raised
      else match features
        case None => Rows([])
        case Some(fs) =>
          match Attributes(fs)
          case None => Raised
          case Some(rows) => Rows(rows)
  }

  /** `if self.token:` */
  predicate HasToken(token: Option<string>) {
    token.Some? && token.value != ""
  }

  /**
   * `_make_request`'s parameters: the token when one is set, then
   * `f=json` and `outFields=*`; every other parameter is passed unchanged.
   */
  function MakeParams(params: map<string, Value>, token: Option<string>): (r: map<string, Value>)
    ensures "f" in r && r["f"] == Str("json")
    ensures "outFields" in r && r["outFields"] == Str("*")
    ensures forall k :: k in r <==> k in params || k == "f" || k == "outFields" || (k == "token" && HasToken(token))
    ensures HasToken(token) ==> "token" in r && r["token"] == Str(token.value)
    ensures forall k :: (k in params && k != "f" && k != "outFields" && (k != "token" || !HasToken(token))
                         ==> r[k] == params[k])
  {
    var withToken := if HasToken(token) then params["token" := Str(token.value)] else params;
    withToken["f" := Str("json")]["outFields" := Str("*")]
  }

  /** The parameters `query_layer` hands to `_make_request`. */
  function QueryParams(whereClause: string, returnGeometry: bool, maxRecords: int): map<string, Value> {
    map["where" := Str(whereClause),
        "returnGeometry" := Str(if returnGeometry then "true" else "false"),
        "spatialRel" := Str("esriSpatialRelIntersects"),
        "outSR" := Str("4326"),
        "resultRecordCount" := Int(maxRecords)]
  }

  /** A query request carries its clause and asks for JSON with every field, with or without a token. */
  lemma QueryRequest(whereClause: string, returnGeometry: bool, maxRecords: int, token: Option<string>)
    ensures var r := MakeParams(QueryParams(whereClause, returnGeometry, maxRecords), token);
      "where" in r && r["where"] == Str(whereClause)
      && "resultRecordCount" in r && r["resultRecordCount"] == Int(maxRecords)
      && r["f"] == Str("json") && r["outFields"] == Str("*")
      && ("token" in r <==> HasToken(token))
  {
    var q := QueryParams(whereClause, returnGeometry, maxRecords);
    assert "token" !in q;
  }

  // ------------------------------------------------------------ the search

  /** The clause of the coordinator search, with the name escaped. */
  function NameClause(resourceName: string): string {
    "Resource_Name = '" + Escape(resourceName) + "' AND Resource_Status = 'Assigned' AND Resource_Type='Coordinator'"
  }

  /** A row carries a truthy `Resource_Project_ID`. */
  predicate HasProjectId(r: Resource) {
    Truthy(Get(r.projectId, Null))
  }

  /** `str` of every truthy `Resource_Project_ID`, in order. */
  function IdStrings(rows: seq<Resource>): (r: seq<string>)
    ensures |r| == |Filter(rows, HasProjectId)|
  {
    if rows == [] then []
    else
      var last := rows[|rows| - 1];
      IdStrings(rows[..|rows| - 1]) + (if HasProjectId(last) then [ToStr(Get(last.projectId, Null))] else [])
  }

  lemma {:induction false} IdStringsMembers(rows: seq<Resource>)
    ensures forall s :: s in IdStrings(rows) <==>
      exists k :: 0 <= k < |rows| && HasProjectId(rows[k]) && ToStr(Get(rows[k].projectId, Null)) == s
  {
    if rows != [] {
      var prefix := rows[..|rows| - 1];
      IdStringsMembers(prefix);
      forall s | s in IdStrings(rows)
        ensures exists k :: 0 <= k < |rows| && HasProjectId(rows[k]) && ToStr(Get(rows[k].projectId, Null)) == s
      {
        if s in IdStrings(prefix) {
          var k :| 0 <= k < |prefix| && HasProjectId(prefix[k]) && ToStr(Get(prefix[k].projectId, Null)) == s;
          assert rows[k] == prefix[k];
        } else {
          assert rows[|rows| - 1] == rows[|rows| - 1];
        }
      }
      forall s | exists k :: 0 <= k < |rows| && HasProjectId(rows[k]) && ToStr(Get(rows[k].projectId, Null)) == s
        ensures s in IdStrings(rows)
      {
        var k :| 0 <= k < |rows| && HasProjectId(rows[k]) && ToStr(Get(rows[k].projectId, Null)) == s;
        if k < |rows| - 1 {
          assert prefix[k] == rows[k];
        }
      }
    }
  }

  /** The ids `search_resources_by_name` returns, `list(set(...))` taken in first-occurrence order. */
  function SearchIds(resourceName: string, resourcesQuery: string -> QueryOutcome<Resource>): seq<string> {
    Distinct(IdStrings(RowsOrEmpty(resourcesQuery(NameClause(resourceName)))))
  }

  /** `search_resources_by_name`. */
  method SearchResourcesByName(resourceName: string, resourcesQuery: string -> QueryOutcome<Resource>)
    returns (ids: seq<string>)
    ensures ids == SearchIds(resourceName, resourcesQuery)
  {
    var resources := RowsOrEmpty(resourcesQuery(NameClause(resourceName)));
    var projectIds := CollectIds(resources);
    ids := Distinct(projectIds);
  }

  /** The loop of `search_resources_by_name` over the rows the query returned. */
  method CollectIds(resources: seq<Resource>) returns (projectIds: seq<string>)
    ensures projectIds == IdStrings(resources)
  {
    projectIds := [];
    var i := 0;
    while i < |resources|
      invariant 0 <= i <= |resources|
      invariant projectIds == IdStrings(resources[..i])
    {
      IdStringsStep(resources, i);
      var id := Get(resources[i].projectId, Null);
      if Truthy(id) {
        projectIds := projectIds + [ToStr(id)];
      }
      i := i + 1;
    }
    assert resources[..i] == resources;
  }

  lemma {:induction false} IdStringsStep(rows: seq<Resource>, i: int)
    requires 0 <= i < |rows|
    ensures IdStrings(rows[..i + 1]) == IdStrings(rows[..i])
      + (if HasProjectId(rows[i]) then [ToStr(Get(rows[i].projectId, Null))] else [])
  {
    var next := rows[..i + 1];
    assert next[..|next| - 1] == rows[..i] && next[|next| - 1] == rows[i];
  }

  /**
   * The search returns each id once, and exactly the `str` of the truthy
   * `Resource_Project_ID` values of the rows the query returned; a failed
   * query gives no ids.
   */
  lemma SearchIdsSpec(resourceName: string, resourcesQuery: string -> QueryOutcome<Resource>)
    ensures NoDuplicates(SearchIds(resourceName, resourcesQuery))
    ensures var rows := RowsOrEmpty(resourcesQuery(NameClause(resourceName)));
      forall s :: s in SearchIds(resourceName, resourcesQuery) <==>
        exists k :: 0 <= k < |rows| && HasProjectId(rows[k]) && ToStr(Get(rows[k].projectId, Null)) == s
    ensures resourcesQuery(NameClause(resourceName)).Raised? ==> SearchIds(resourceName, resourcesQuery) == []
  {
    var ss := IdStrings(RowsOrEmpty(resourcesQuery(NameClause(resourceName))));
    IdStringsMembers(RowsOrEmpty(resourcesQuery(NameClause(resourceName))));
    forall s ensures s in Distinct(ss) <==> s in ss {
      if s in Distinct(ss) {
        var k :| 0 <= k < |Distinct(ss)| && Distinct(ss)[k] == s;
      }
      if s in ss {
        var k :| 0 <= k < |ss| && ss[k] == s;
      }
    }
  }

  /** The name is quoted safely: the literal reads back as the name, and no quote in it ends the literal early. */
  lemma NameClauseQuotesName(resourceName: string)
    ensures Unescape(Escape(resourceName)) == resourceName && QuotesPaired(Escape(resourceName))
    ensures NameClause(resourceName) == "Resource_Name = '" + Escape(resourceName)
      + "' AND Resource_Status = 'Assigned' AND Resource_Type='Coordinator'"
  {
    UnescapeEscape(resourceName);
    EscapedQuotesPaired(resourceName);
  }

  // ------------------------------------------------------- team members

  /** The clause of the team-member look-up. */
  function TeamClause(ids: seq<string>): string
    requires |ids| > 0
  {
    IdClause("Resource_Project_ID", ids) + " AND Resource_Type = 'Other' AND Resource_Status = 'Assigned'"
  }

  /** The team-member record built from a row. */
  function MemberOf(r: Resource): TeamMember {
    TeamMember(Some(Get(r.name, Null)), Get(r.email, Null), Get(r.team, Null), Get(r.leadership, Null))
  }

  /** Each row with a project id, paired with its member record. */
  function TeamPairs(rows: seq<Resource>): (r: seq<(Value, TeamMember)>)
    ensures |r| == |Filter(rows, HasProjectId)|
  {
    if rows == [] then []
    else
      var last := rows[|rows| - 1];
      TeamPairs(rows[..|rows| - 1]) + (if HasProjectId(last) then [(Get(last.projectId, Null), MemberOf(last))] else [])
  }

  /** The members of the rows with project id `id`, in order. */
  function RowsFor(rows: seq<Resource>, id: Value): seq<TeamMember> {
    if rows == [] then []
    else
      var last := rows[|rows| - 1];
      RowsFor(rows[..|rows| - 1], id)
      + (if HasProjectId(last) && Get(last.projectId, Null) == id then [MemberOf(last)] else [])
  }

  /** What `get_project_team_members` returns; no ids or a failed query gives `{}`. */
  function TeamsFor(ids: seq<string>, resourcesQuery: string -> QueryOutcome<Resource>): Index<Value, TeamMember> {
    if ids == [] then Index([], map[])
    else GroupBy(TeamPairs(RowsOrEmpty(resourcesQuery(TeamClause(ids)))))
  }

  /** `get_project_team_members`: one query, then the rows grouped by project id. */
  method GetProjectTeamMembers(ids: seq<string>, resourcesQuery: string -> QueryOutcome<Resource>)
    returns (teamByProject: Index<Value, TeamMember>)
    ensures teamByProject == TeamsFor(ids, resourcesQuery)
  {
    if ids == [] {
      return Index([], map[]);
    }
    var teamResources := RowsOrEmpty(resourcesQuery(TeamClause(ids)));
    teamByProject := GroupTeam(teamResources);
  }

  /** The grouping loop of `get_project_team_members`. */
  method GroupTeam(teamResources: seq<Resource>) returns (teamByProject: Index<Value, TeamMember>)
    ensures teamByProject == GroupBy(TeamPairs(teamResources))
  {
    teamByProject := Index([], map[]);
    var i := 0;
    while i < |teamResources|
      invariant 0 <= i <= |teamResources|
      invariant teamByProject == GroupBy(TeamPairs(teamResources[..i]))
    {
      TeamPairsStep(teamResources, i);
      var resource := teamResources[i];
      var projectId := Get(resource.projectId, Null);
      if Truthy(projectId) {
        var member := MemberOf(resource);
        GroupBySnoc(TeamPairs(teamResources[..i]), projectId, member);
        assert TeamPairs(teamResources[..i + 1]) == TeamPairs(teamResources[..i]) + [(projectId, member)];
        teamByProject := AddTo(teamByProject, projectId, member);
      } else {
        assert TeamPairs(teamResources[..i + 1]) == TeamPairs(teamResources[..i]);
      }
      i := i + 1;
    }
    assert teamResources[..i] == teamResources;
  }

  lemma {:induction false} TeamPairsStep(rows: seq<Resource>, i: int)
    requires 0 <= i < |rows|
    ensures TeamPairs(rows[..i + 1]) == TeamPairs(rows[..i])
      + (if HasProjectId(rows[i]) then [(Get(rows[i].projectId, Null), MemberOf(rows[i]))] else [])
  {
    var next := rows[..i + 1];
    assert next[..|next| - 1] == rows[..i] && next[|next| - 1] == rows[i];
  }

  lemma {:induction false} TeamPairsValues(rows: seq<Resource>, id: Value)
    ensures ValuesFor(TeamPairs(rows), id) == RowsFor(rows, id)
  {
    if rows != [] {
      var prefix := rows[..|rows| - 1];
      var last := rows[|rows| - 1];
      TeamPairsValues(prefix, id);
      var ps := TeamPairs(rows);
      if HasProjectId(last) {
        assert ps == TeamPairs(prefix) + [(Get(last.projectId, Null), MemberOf(last))];
        assert ps[..|ps| - 1] == TeamPairs(prefix);
      } else {
        assert ps == TeamPairs(prefix);
      }
    }
  }

  /**
   * Grouping: the keys are the project ids that have rows, each once, in
   * order of first appearance; each group holds the rows of its id in input
   * order; rows without an id are dropped, so the group sizes add up to the
   * number of rows with an id.
   */
  lemma TeamGrouping(rows: seq<Resource>)
    ensures var g := GroupBy(TeamPairs(rows));
      NoDuplicates(g.keys)
      && (forall id :: id in g.groups <==> RowsFor(rows, id) != [])
      && (forall id :: id in g.groups ==> g.groups[id] == RowsFor(rows, id))
      && (forall id :: id in g.keys ==> id in g.groups)
      && GroupSizes(g.keys, g.groups) == |Filter(rows, HasProjectId)|
  {
    var pairs := TeamPairs(rows);
    GroupByContents(pairs);
    GroupBySizes(pairs);
    forall id ensures id in GroupBy(pairs).groups <==> RowsFor(rows, id) != [] {
      TeamPairsValues(rows, id);
      ValuesForCount(pairs, id);
      CountPositive(Firsts(pairs), id);
    }
    forall id | id in GroupBy(pairs).groups ensures GroupBy(pairs).groups[id] == RowsFor(rows, id) {
      TeamPairsValues(rows, id);
    }
  }

  /** The members of the rows with project id `id`: only rows with a truthy id count. */
  lemma {:induction false} RowsForSpec(rows: seq<Resource>, id: Value)
    ensures |RowsFor(rows, id)| == |Filter(rows, r => HasProjectId(r) && Get(r.projectId, Null) == id)|
    ensures !Truthy(id) ==> RowsFor(rows, id) == []
  {
    if rows != [] {
      RowsForSpec(rows[..|rows| - 1], id);
    }
  }

  // ----------------------------------------------------- project details

  function DetailsClause(ids: seq<string>): string
    requires |ids| > 0
  {
    IdClause("Project_ID", ids)
  }

  /** `get_project_details`: no ids gives `[]` without a query; a failed query gives `[]`. */
  function ProjectDetails(ids: seq<string>, projectsQuery: string -> QueryOutcome<Project>): (r: seq<Project>)
    ensures ids == [] ==> r == []
    ensures ids != [] && projectsQuery(DetailsClause(ids)).Raised? ==> r == []
  {
    if ids == [] then [] else RowsOrEmpty(projectsQuery(DetailsClause(ids)))
  }

  /** The detail and team clauses ask for exactly the given ids when none contains a quote. */
  lemma ClausesNameIds(ids: seq<string>)
    requires |ids| > 0 && forall k :: 0 <= k < |ids| ==> NoQuote(ids[k])
    ensures Quoted(DetailsClause(ids)) == ids
    ensures Quoted(IdClause("Resource_Project_ID", ids)) == ids
  {
    IdClauseQuotes("Project_ID", ids);
    IdClauseQuotes("Resource_Project_ID", ids);
  }

  // ----------------------------------------------------------- attachment

  function AsMembers(ms: seq<TeamMember>): (r: seq<Member>)
    ensures |r| == |ms| && forall k :: 0 <= k < |ms| ==> r[k] == MemberRecord(ms[k])
  {
    if ms == [] then [] else AsMembers(ms[..|ms| - 1]) + [MemberRecord(ms[|ms| - 1])]
  }

  /** A project after `main` sets its `Team_Members`. */
  function Attached(p: Project, teams: Index<Value, TeamMember>): Project {
    var id := Get(p.id, Null);
    p.(teamMembers := TeamList(if Truthy(id) && id in teams.groups then AsMembers(teams.groups[id]) else []))
  }

  function AttachAll(ps: seq<Project>, teams: Index<Value, TeamMember>): (r: seq<Project>)
    ensures |r| == |ps| && forall k :: 0 <= k < |ps| ==> r[k] == Attached(ps[k], teams)
  {
    if ps == [] then [] else AttachAll(ps[..|ps| - 1], teams) + [Attached(ps[|ps| - 1], teams)]
  }

  /** The attachment loop of `main`, which updates each project in place. */
  method AttachTeamMembers(projects: array<Project>, teams: Index<Value, TeamMember>)
    modifies projects
    ensures projects[..] == AttachAll(old(projects[..]), teams)
  {
    var i := 0;
    while i < projects.Length
      invariant 0 <= i <= projects.Length
      invariant forall k :: 0 <= k < i ==> projects[k] == Attached(old(projects[k]), teams)
      invariant forall k :: i <= k < projects.Length ==> projects[k] == old(projects[k])
    {
      var project := projects[i];
      var projectId := Get(project.id, Null);
      if Truthy(projectId) && projectId in teams.groups {
        projects[i] := project.(teamMembers := TeamList(AsMembers(teams.groups[projectId])));
      } else {
        projects[i] := project.(teamMembers := TeamList([]));
      }
      i := i + 1;
    }
  }

  /**
   * After attachment every project has a `Team_Members` list: the records
   * of its own group when its id is a key, else empty; nothing else about
   * the project changes, and attaching twice is attaching once.
   */
  lemma AttachedSpec(p: Project, teams: Index<Value, TeamMember>)
    ensures Attached(p, teams).teamMembers.TeamList?
    ensures var id := Get(p.id, Null);
      var items := Attached(p, teams).teamMembers.items;
      if Truthy(id) && id in teams.groups
      then |items| == |teams.groups[id]| && forall k :: 0 <= k < |items| ==> items[k] == MemberRecord(teams.groups[id][k])
      else items == []
    ensures Attached(p, teams).(teamMembers := p.teamMembers) == p
    ensures Attached(Attached(p, teams), teams) == Attached(p, teams)
  {
  }

  // ---------------------------------------------------------- name filter

  /** The name test of `main`: a CRP/crp/Caribou/caribou prefix, or 'Caribou'/'caribou' anywhere. */
  predicate MainCrpName(name: string) {
    "CRP" <= name || "crp" <= name || "Caribou" <= name || "caribou" <= name
    || Contains(name, "Caribou") || Contains(name, "caribou")
  }

  predicate IsMainCrpProject(p: Project) {
    MainCrpName(Get(p.name, ""))
  }

  /** The filtering loop of `main`. */
  method FilterProjects(projects: seq<Project>) returns (filtered: seq<Project>)
    ensures filtered == Filter(projects, IsMainCrpProject)
  {
    filtered := [];
    var i := 0;
    while i < |projects|
      invariant 0 <= i <= |projects|
      invariant filtered == Filter(projects[..i], IsMainCrpProject)
    {
      assert projects[..i + 1][..i] == projects[..i];
      var projectName := Get(projects[i].name, "");
      if "CRP" <= projectName || "crp" <= projectName || "Caribou" <= projectName || "caribou" <= projectName
         || Contains(projectName, "Caribou") || Contains(projectName, "caribou") {
        filtered := filtered + [projects[i]];
      }
      i := i + 1;
    }
    assert projects[..i] == projects;
  }

  /**
   * The 'Caribou'/'caribou' prefixes add nothing to the 'in' tests, so this
   * filter is the analyzer's CRP filter plus the names starting with 'crp'.
   */
  lemma MainCrpNameIsCrpName(name: string)
    ensures MainCrpName(name) <==> Engagement.CrpName(name) || "crp" <= name
  {
  }

  /** The filter keeps exactly the projects whose name passes the test. */
  lemma FilterProjectsSpec(projects: seq<Project>)
    ensures forall p :: p in Filter(projects, IsMainCrpProject) <==> p in projects && MainCrpName(Get(p.name, ""))
  {
    FilterMembers(projects, IsMainCrpProject);
  }

  // ---------------------------------------------------------- file name

  /** `str.isalnum` on ASCII. */
  predicate IsAlnum(c: char) {
    'a' <= c <= 'z' || 'A' <= c <= 'Z' || '0' <= c <= '9'
  }

  predicate FilenameChar(c: char) {
    IsAlnum(c) || c == ' ' || c == '-' || c == '_'
  }

  /** `safe_filename`: every character that is not alphanumeric, ' ', '-' or '_' becomes '_'. */
  function SafeFilename(name: string): (r: string)
    ensures |r| == |name|
    ensures forall k :: 0 <= k < |r| ==> FilenameChar(r[k]) && (r[k] == name[k] <==> FilenameChar(name[k]))
  {
    if name == [] then []
    else
      var c := name[|name| - 1];
      SafeFilename(name[..|name| - 1]) + [if FilenameChar(c) then c else '_']
  }

  /** Letters, digits, '-', '_' and '.': no space and no path separator. */
  predicate OutputChars(s: string) {
    forall k :: 0 <= k < |s| ==> IsAlnum(s[k]) || s[k] == '-' || s[k] == '_' || s[k] == '.'
  }

  lemma OutputCharsConcat(a: string, b: string)
    requires OutputChars(a) && OutputChars(b)
    ensures OutputChars(a + b)
  {
    forall k | 0 <= k < |a + b| ensures IsAlnum((a + b)[k]) || (a + b)[k] in "-_." {
      if k >= |a| {
        assert (a + b)[k] == b[k - |a|];
      }
    }
  }

  /** `projects_for_<safe name with '_' for ' '>.json`. */
  function OutputFile(resourceName: string): (r: string)
    ensures |r| == |resourceName| + 18
    ensures "projects_for_" <= r && r[|r| - 5..] == ".json"
    ensures OutputChars(r) && ' ' !in r
  {
    var safe := ReplaceChar(SafeFilename(resourceName), ' ', '_');
    assert OutputChars(safe) by {
      forall k | 0 <= k < |safe| ensures IsAlnum(safe[k]) || safe[k] in "-_." {
        assert FilenameChar(SafeFilename(resourceName)[k]);
      }
    }
    assert OutputChars("projects_for_");
    assert OutputChars(".json");
    OutputCharsConcat("projects_for_", safe);
    OutputCharsConcat("projects_for_" + safe, ".json");
    "projects_for_" + safe + ".json"
  }

  // ------------------------------------------------------------- main

  /** Where `main` stops after a successful set-up (the checks of the environment and the service are not modelled). */
  datatype RunOutcome =
    | NoResourceName
    | NoAssignedProjects
    | NoProjectDetails
    | NoMatchingProjects
    | Saved(projects: seq<Project>, outputFile: string)

  function ProjectsForResourceRun(resourceName: string, resourcesQuery: string -> QueryOutcome<Resource>,
                                  projectsQuery: string -> QueryOutcome<Project>): RunOutcome
  {
    if resourceName == "" then NoResourceName
    else
      var ids := SearchIds(resourceName, resourcesQuery);
      if ids == [] then NoAssignedProjects
      else
        var details := ProjectDetails(ids, projectsQuery);
        if details == [] then NoProjectDetails
        else
          var filtered := Filter(AttachAll(details, TeamsFor(ids, resourcesQuery)), IsMainCrpProject);
          if filtered == [] then NoMatchingProjects else Saved(filtered, OutputFile(resourceName))
  }

  /** The data path of `main`: search, details, team members, attachment, filter, file name. */
  method ProjectsForResource(resourceName: string, resourcesQuery: string -> QueryOutcome<Resource>,
                             projectsQuery: string -> QueryOutcome<Project>)
    returns (r: RunOutcome)
    ensures r == ProjectsForResourceRun(resourceName, resourcesQuery, projectsQuery)
  {
    if resourceName == "" {
      return NoResourceName;
    }
    var projectIds := SearchResourcesByName(resourceName, resourcesQuery);
    if projectIds == [] {
      return NoAssignedProjects;
    }
    var details := ProjectDetails(projectIds, projectsQuery);
    if details == [] {
      return NoProjectDetails;
    }
    var teamMembers := GetProjectTeamMembers(projectIds, resourcesQuery);
    var filtered := AttachAndFilter(details, teamMembers);
    if filtered == [] {
      return NoMatchingProjects;
    }
    r := Saved(filtered, OutputFile(resourceName));
  }

  /** The projects as a mutable list: attach the teams in place, then filter by name. */
  method AttachAndFilter(details: seq<Project>, teams: Index<Value, TeamMember>) returns (filtered: seq<Project>)
    ensures filtered == Filter(AttachAll(details, teams), IsMainCrpProject)
  {
    var projects := new Project[|details|](k requires 0 <= k < |details| => details[k]);
    assert projects[..] == details;
    AttachTeamMembers(projects, teams);
    filtered := FilterProjects(projects[..]);
  }

  /**
   * Every saved project passes the name test and has a `Team_Members`
   * list, at least one project is saved, and the file name has no spaces.
   */
  lemma {:induction false} SavedProjects(resourceName: string, resourcesQuery: string -> QueryOutcome<Resource>,
                                         projectsQuery: string -> QueryOutcome<Project>)
    ensures var r := ProjectsForResourceRun(resourceName, resourcesQuery, projectsQuery);
      r.Saved? ==>
        (forall p :: p in r.projects ==> MainCrpName(Get(p.name, "")) && p.teamMembers.TeamList?)
        && 0 < |r.projects| && ' ' !in r.outputFile
  {
    var r := ProjectsForResourceRun(resourceName, resourcesQuery, projectsQuery);
    if r.Saved? {
      var ids := SearchIds(resourceName, resourcesQuery);
      var details := ProjectDetails(ids, projectsQuery);
      var teams := TeamsFor(ids, resourcesQuery);
      assert r.projects == Filter(AttachAll(details, teams), IsMainCrpProject);
      FilteredAttached(details, teams);
    }
  }

  /** A project kept after attachment and filtering is one of the details with its team attached. */
  lemma {:induction false} FilteredAttached(details: seq<Project>, teams: Index<Value, TeamMember>)
    ensures forall p :: p in Filter(AttachAll(details, teams), IsMainCrpProject) ==>
      MainCrpName(Get(p.name, "")) && p.teamMembers.TeamList?
      && exists k :: 0 <= k < |details| && p == Attached(details[k], teams)
  {
    var attached := AttachAll(details, teams);
    FilterMembers(attached, IsMainCrpProject);
    forall p | p in Filter(attached, IsMainCrpProject)
      ensures p.teamMembers.TeamList? && exists k :: 0 <= k < |details| && p == Attached(details[k], teams)
    {
      var k :| 0 <= k < |attached| && attached[k] == p;
    }
  }
}
