/**
 * The team-engagement analyzer of the Caribou Recovery Program dashboard:
 * the CRP/Caribou name filter, the batched resource look-up, the per-person
 * engagement built from resource rows with a coordinator fallback, the
 * workload and role histograms, the per-client fold, the top-N rankings and
 * the configuration check.
 *
 * The analyzer's only state is whether its service client could be set up;
 * that is the parameter `clientAvailable`.  The environment is a map, and
 * each query to the service is given as its outcome: the project query as a
 * value, the resource query as a function from the `where` clause sent to
 * the outcome of that request.
 */
module Engagement {
  import opened PyValues
  import opened Records
  import opened Collections
  import opened Clauses

  /** The environment variables, as `os.getenv` sees them. */
  type Env = map<string, string>

  /** `os.getenv(name)` is truthy. */
  predicate EnvSet(env: Env, name: string) {
    name in env && env[name] != ""
  }

  // ------------------------------------------------------------ CRP projects

  /** The project names the analyzer keeps: starting with 'CRP', or mentioning 'Caribou' or 'caribou'. */
  predicate CrpName(name: string) {
    "CRP" <= name || Contains(name, "Caribou") || Contains(name, "caribou")
  }

  predicate IsCrpProject(p: Project) {
    CrpName(Get(p.name, ""))
  }

  /** The filtering loop of `get_all_crp_projects`. */
  method FilterCrpProjects(all: seq<Project>) returns (crp: seq<Project>)
    ensures crp == Filter(all, IsCrpProject)
  {
    crp := [];
    var i := 0;
    while i < |all|
      invariant 0 <= i <= |all|
      invariant crp == Filter(all[..i], IsCrpProject)
    {
      assert all[..i + 1][..i] == all[..i];
      if IsCrpProject(all[i]) {
        crp := crp + [all[i]];
      }
      i := i + 1;
    }
    assert all[..i] == all;
  }

  /** The projects `get_all_crp_projects` returns; a failed query gives none. */
  function CrpProjects(clientAvailable: bool, env: Env, projectsQuery: QueryOutcome<Project>): seq<Project> {
    if !clientAvailable || !EnvSet(env, "GSS_PROJECTS_TABLE_URL") then []
    else Filter(RowsOrEmpty(projectsQuery), IsCrpProject)
  }

  method GetAllCrpProjects(clientAvailable: bool, env: Env, projectsQuery: QueryOutcome<Project>)
    returns (crp: seq<Project>)
    ensures crp == CrpProjects(clientAvailable, env, projectsQuery)
  {
    if !clientAvailable || !EnvSet(env, "GSS_PROJECTS_TABLE_URL") {
      return [];
    }
    crp := FilterCrpProjects(RowsOrEmpty(projectsQuery));
  }

  /** The filter keeps exactly the projects with a CRP name, each as often as it occurs. */
  lemma CrpFilterSpec(all: seq<Project>)
    ensures forall p :: p in Filter(all, IsCrpProject) <==> p in all && CrpName(Get(p.name, ""))
  {
    FilterMembers(all, IsCrpProject);
  }

  /**
   * The match is case-sensitive: a name that does not start with 'CRP' and
   * has no lower-case 'b' ('crp survey', 'CARIBOU') is not a CRP name.
   */
  lemma CrpNameCaseSensitive(name: string)
    requires !("CRP" <= name) && 'b' !in name
    ensures !CrpName(name)
  {
    NoCaribouWithoutB(name);
  }

  /** A 'CRP' prefix or a 'caribou' anywhere in the name counts. */
  lemma CrpNameMatches()
    ensures CrpName("CRP-2024") && CrpName("Boreal caribou")
  {
    assert "Boreal caribou"[7..] == "caribou";
    ContainsSuffix("Boreal caribou", 7, "caribou");
  }

  lemma {:induction false} ContainsSuffix(s: string, k: nat, sub: string)
    requires k <= |s| && sub <= s[k..]
    ensures Contains(s, sub)
    decreases k
  {
    if k > 0 {
      assert s[1..][k - 1..] == s[k..];
      ContainsSuffix(s[1..], k - 1, sub);
    }
  }

  /** A text without the letter 'b' mentions neither 'Caribou' nor 'caribou'. */
  lemma NoCaribouWithoutB(s: string)
    requires 'b' !in s
    ensures !Contains(s, "Caribou") && !Contains(s, "caribou")
  {
    if Contains(s, "Caribou") {
      ContainsHasChars(s, "Caribou", 'b');
      assert false;
    }
    if Contains(s, "caribou") {
      ContainsHasChars(s, "caribou", 'b');
      assert false;
    }
  }

  // -------------------------------------------------------- resource batches

  /** `str(project_id)` of every truthy `Project_ID`, in order. */
  function ProjectIds(ps: seq<Project>): (r: seq<string>)
    ensures forall k :: 0 <= k < |r| ==> r[k] != ""
  {
    if ps == [] then []
    else
      var id := Get(ps[|ps| - 1].id, Null);
      ProjectIds(ps[..|ps| - 1]) + (if Truthy(id) then [ToStr(id)] else [])
  }

  /** The id-extraction loop of `get_all_crp_resources`. */
  method ExtractProjectIds(ps: seq<Project>) returns (ids: seq<string>)
    ensures ids == ProjectIds(ps)
  {
    ids := [];
    var i := 0;
    while i < |ps|
      invariant 0 <= i <= |ps|
      invariant ids == ProjectIds(ps[..i])
    {
      assert ps[..i + 1][..i] == ps[..i];
      var id := Get(ps[i].id, Null);
      if Truthy(id) {
        ids := ids + [ToStr(id)];
      }
      i := i + 1;
    }
    assert ps[..i] == ps;
  }

  const BatchSize: nat := 10

  /** `ids[i:i + 10]`: the batch starting at `i`, shorter at the end of the list. */
  function Batch(ids: seq<string>, i: nat): seq<string>
    requires i < |ids|
  {
    ids[i..if i + BatchSize <= |ids| then i + BatchSize else |ids|]
  }

  /** `ids[i:i + 10]`, `ids[i + 10:i + 20]`, ... up to the end. */
  function BatchesFrom(ids: seq<string>, i: nat): seq<seq<string>>
    decreases |ids| - i
  {
    if i >= |ids| then [] else [Batch(ids, i)] + BatchesFrom(ids, i + BatchSize)
  }

  function Flatten<T>(xss: seq<seq<T>>): seq<T> {
    if xss == [] then [] else xss[0] + Flatten(xss[1..])
  }

  /**
   * The batches are consecutive slices of one to ten ids whose concatenation
   * is the id list, and there are `ceil(n / 10)` of them.
   */
  lemma {:induction false} BatchesCover(ids: seq<string>, i: nat)
    requires i <= |ids|
    ensures Flatten(BatchesFrom(ids, i)) == ids[i..]
    ensures forall k :: 0 <= k < |BatchesFrom(ids, i)| ==> 1 <= |BatchesFrom(ids, i)[k]| <= BatchSize
    ensures |BatchesFrom(ids, i)| == (|ids| - i + BatchSize - 1) / BatchSize
    decreases |ids| - i
  {
    if i < |ids| {
      var j := if i + BatchSize <= |ids| then i + BatchSize else |ids|;
      BatchesCover(ids, j);
      if j < i + BatchSize {
        assert BatchesFrom(ids, i + BatchSize) == [];
      }
      assert ids[i..] == ids[i..j] + ids[j..];
    }
  }

  /** The clause of one batch. */
  function BatchClause(batch: seq<string>): string
    requires |batch| > 0
  {
    IdClause("Resource_Project_ID", batch) + " AND Resource_Status = 'Assigned'"
  }

  predicate NoEmptyBatch(batches: seq<seq<string>>) {
    forall k :: 0 <= k < |batches| ==> |batches[k]| > 0
  }

  /** The rows of every batch whose query succeeded, in batch order. */
  function Fetched(resourcesQuery: string -> QueryOutcome<Resource>, batches: seq<seq<string>>): seq<Resource>
    requires NoEmptyBatch(batches)
  {
    if batches == [] then []
    else RowsOrEmpty(resourcesQuery(BatchClause(batches[0]))) + Fetched(resourcesQuery, batches[1..])
  }

  /** What `get_all_crp_resources` returns. */
  function CrpResources(clientAvailable: bool, env: Env, crp: seq<Project>,
                        resourcesQuery: string -> QueryOutcome<Resource>): seq<Resource>
  {
    if !clientAvailable || crp == [] || !EnvSet(env, "GSS_RESOURCES_TABLE_URL") || ProjectIds(crp) == [] then []
    else
      BatchesCover(ProjectIds(crp), 0);
      Fetched(resourcesQuery, BatchesFrom(ProjectIds(crp), 0))
  }

  /** `get_all_crp_resources`: query the resources ten project ids at a time. */
  method GetAllCrpResources(clientAvailable: bool, env: Env, crp: seq<Project>,
                            resourcesQuery: string -> QueryOutcome<Resource>)
    returns (all: seq<Resource>)
    ensures all == CrpResources(clientAvailable, env, crp, resourcesQuery)
  {
    if !clientAvailable || crp == [] || !EnvSet(env, "GSS_RESOURCES_TABLE_URL") {
      return [];
    }
    var ids := ExtractProjectIds(crp);
    if ids == [] {
      return [];
    }
    all := FetchBatches(ids, resourcesQuery);
  }

  /** The batch loop of `get_all_crp_resources`: a failed batch adds no rows. */
  method FetchBatches(ids: seq<string>, resourcesQuery: string -> QueryOutcome<Resource>) returns (all: seq<Resource>)
    ensures NoEmptyBatch(BatchesFrom(ids, 0))
    ensures all == Fetched(resourcesQuery, BatchesFrom(ids, 0))
  {
    BatchesCover(ids, 0);
    all := [];
    var i := 0;
    while i < |ids|
      invariant 0 <= i
      invariant NoEmptyBatch(BatchesFrom(ids, i))
      invariant all + Fetched(resourcesQuery, BatchesFrom(ids, i)) == Fetched(resourcesQuery, BatchesFrom(ids, 0))
      decreases |ids| - i
    {
      var batch := Batch(ids, i);
      BatchStep(resourcesQuery, ids, i);
      var outcome := resourcesQuery(BatchClause(batch));
      ghost var before := all;
      if outcome.Rows? {
        all := all + outcome.rows;
      }
      assert all == before + RowsOrEmpty(outcome);
      Regroup(before, RowsOrEmpty(outcome), Fetched(resourcesQuery, BatchesFrom(ids, i + BatchSize)));
      i := i + BatchSize;
    }
    assert BatchesFrom(ids, i) == [];
  }

  /** One iteration of the batch loop: the first batch's rows, then the rest. */
  lemma BatchStep(q: string -> QueryOutcome<Resource>, ids: seq<string>, i: nat)
    requires i < |ids|
    ensures NoEmptyBatch(BatchesFrom(ids, i)) && NoEmptyBatch(BatchesFrom(ids, i + BatchSize))
    ensures |Batch(ids, i)| > 0
    ensures Fetched(q, BatchesFrom(ids, i)) == RowsOrEmpty(q(BatchClause(Batch(ids, i))))
      + Fetched(q, BatchesFrom(ids, i + BatchSize))
  {
    BatchesCover(ids, i);
    var rest := BatchesFrom(ids, i + BatchSize);
    assert BatchesFrom(ids, i) == [Batch(ids, i)] + rest;
    assert ([Batch(ids, i)] + rest)[1..] == rest;
    assert forall k :: 0 <= k < |rest| ==> rest[k] == BatchesFrom(ids, i)[k + 1];
  }

  lemma Regroup<T>(a: seq<T>, b: seq<T>, c: seq<T>)
    ensures (a + b) + c == a + (b + c)
  {
  }

  // -------------------------------------------------------------- engagement

  /** One entry of a person's `projects` list. */
  datatype Assignment = Assignment(name: string, projectId: Value, status: string, role: Value)

  /** One value of `engagement_by_person`. */
  datatype PersonData = PersonData(total: nat, projects: seq<Assignment>, roles: set<Value>, statuses: map<string, nat>)

  /** `engagement_by_person`: the people in insertion order and their data. */
  datatype Engagement = Engagement(people: seq<Value>, data: map<Value, PersonData>)

  const NoOne: Engagement := Engagement([], map[])

  /** What the `defaultdict` creates for a new person. */
  const NewPerson: PersonData := PersonData(0, [], {}, map[])

  /** One credit: bump the total, append the entry, add the role, bump the status counter. */
  function Credit(e: Engagement, person: Value, a: Assignment): Engagement {
    var d := if person in e.data then e.data[person] else NewPerson;
    Engagement(if person in e.data then e.people else e.people + [person],
               e.data[person := PersonData(d.total + 1, d.projects + [a], d.roles + {a.role}, Bump(d.statuses, a.status))])
  }

  /** The engagement after crediting `credits` in order, starting from nobody. */
  function EngagementOf(credits: seq<(Value, Assignment)>): Engagement {
    if credits == [] then NoOne
    else
      var c := credits[|credits| - 1];
      Credit(EngagementOf(credits[..|credits| - 1]), c.0, c.1)
  }

  /**
   * `projects_by_project_id.get(id)`: the dictionary is built by a
   * comprehension, so of several projects with one id the last one wins.
   */
  function LookupProject(ps: seq<Project>, id: Value): (r: Option<Project>)
    ensures r.Some? ==> r.value in ps && Get(r.value.id, Null) == id
    ensures r.None? <==> forall k :: 0 <= k < |ps| ==> Get(ps[k].id, Null) != id
    ensures r.Some? ==> exists k :: (0 <= k < |ps| && ps[k] == r.value
                                     && forall j :: k < j < |ps| ==> Get(ps[j].id, Null) != id)
  {
    if ps == [] then None
    else if Get(ps[|ps| - 1].id, Null) == id then Some(ps[|ps| - 1])
    else
      var r := LookupProject(ps[..|ps| - 1], id);
      assert forall k :: 0 <= k < |ps| - 1 ==> ps[..|ps| - 1][k] == ps[k];
      r
  }

  /** A resource row counts when it names a person and a project. */
  predicate ValidRow(r: Resource) {
    Truthy(Get(r.name, Null)) && Truthy(Get(r.projectId, Null))
  }

  /** The entry a valid row adds; an id outside the fetched projects gives 'Unknown Project' and 'Unknown'. */
  function RowAssignment(crp: seq<Project>, r: Resource): Assignment {
    var id := Get(r.projectId, Null);
    var role := Get(r.resourceType, Str("Unknown"));
    match LookupProject(crp, id)
    case Some(p) => Assignment(Get(p.name, "Unknown Project"), id, Get(p.status, "Unknown"), role)
    case None => Assignment("Unknown Project", id, "Unknown", role)
  }

  /** One credit per valid row, to the row's person. */
  function ResourceCredits(crp: seq<Project>, rs: seq<Resource>): (r: seq<(Value, Assignment)>)
    ensures |r| == |Filter(rs, ValidRow)|
  {
    if rs == [] then []
    else
      var row := rs[|rs| - 1];
      ResourceCredits(crp, rs[..|rs| - 1])
      + (if ValidRow(row) then [(Get(row.name, Null), RowAssignment(crp, row))] else [])
  }

  /** `projects_with_resources`: the project ids of the valid rows. */
  function ResourceProjectIds(rs: seq<Resource>): set<Value> {
    if rs == [] then {}
    else
      var row := rs[|rs| - 1];
      ResourceProjectIds(rs[..|rs| - 1]) + (if ValidRow(row) then {Get(row.projectId, Null)} else {})
  }

  /** The fields looked at for a coordinator, in order. */
  function CoordinatorFields(p: Project): seq<Value> {
    [Get(p.manager, Null), Get(p.coordinator, Null), Get(p.projectLead, Null), Get(p.leadScientist, Null)]
  }

  /** The first truthy value of `vs`. */
  function FirstTruthy(vs: seq<Value>): (r: Option<Value>)
    ensures r.None? <==> forall k :: 0 <= k < |vs| ==> !Truthy(vs[k])
    ensures r.Some? ==> r.value in vs && Truthy(r.value)
  {
    if vs == [] then None
    else if Truthy(vs[0]) then Some(vs[0])
    else
      assert forall k :: 1 <= k < |vs| ==> vs[1..][k - 1] == vs[k];
      FirstTruthy(vs[1..])
  }

  /** The value found is the first truthy one: every value before it is falsy. */
  lemma {:induction false} FirstTruthyIsFirst(vs: seq<Value>)
    requires FirstTruthy(vs).Some?
    ensures exists k :: (0 <= k < |vs| && vs[k] == FirstTruthy(vs).value
                         && forall j :: 0 <= j < k ==> !Truthy(vs[j]))
  {
    if !Truthy(vs[0]) {
      FirstTruthyIsFirst(vs[1..]);
      var k :| 0 <= k < |vs[1..]| && vs[1..][k] == FirstTruthy(vs).value
        && forall j :: 0 <= j < k ==> !Truthy(vs[1..][j]);
      assert vs[k + 1] == vs[1..][k];
      forall j | 0 <= j < k + 1 ensures !Truthy(vs[j]) {
        if j > 0 {
          assert vs[j] == vs[1..][j - 1];
        }
      }
    }
  }

  /** The search loop over the coordinator fields, stopping at the first truthy one. */
  method FindCoordinator(p: Project) returns (name: Option<Value>)
    ensures name == FirstTruthy(CoordinatorFields(p))
  {
    var fields := CoordinatorFields(p);
    var i := 0;
    while i < |fields|
      invariant 0 <= i <= |fields|
      invariant FirstTruthy(fields[i..]) == FirstTruthy(fields)
    {
      if Truthy(fields[i]) {
        return Some(fields[i]);
      }
      assert fields[i..][1..] == fields[i + 1..];
      i := i + 1;
    }
    return None;
  }

  /** A project gets the fallback credit when it has an id without valid rows and some coordinator field is set. */
  predicate NeedsFallback(withResources: set<Value>, p: Project) {
    var id := Get(p.id, Null);
    Truthy(id) && id !in withResources && FirstTruthy(CoordinatorFields(p)).Some?
  }

  const FallbackRole: Value := Str("Coordinator (default)")

  function FallbackCredit(p: Project): (Value, Assignment)
    requires FirstTruthy(CoordinatorFields(p)).Some?
  {
    (FirstTruthy(CoordinatorFields(p)).value,
     Assignment(Get(p.name, "Unknown Project"), Get(p.id, Null), Get(p.status, "Unknown"), FallbackRole))
  }

  /** One credit per project needing the fallback, to its coordinator. */
  function FallbackCredits(crp: seq<Project>, withResources: set<Value>): (r: seq<(Value, Assignment)>)
    ensures |r| == |Filter(crp, p => NeedsFallback(withResources, p))|
  {
    if crp == [] then []
    else
      var p := crp[|crp| - 1];
      FallbackCredits(crp[..|crp| - 1], withResources)
      + (if NeedsFallback(withResources, p) then [FallbackCredit(p)] else [])
  }

  /** Every credit the analysis gives: the resource rows first, then the fallbacks. */
  function Credits(crp: seq<Project>, rs: seq<Resource>): seq<(Value, Assignment)> {
    ResourceCredits(crp, rs) + FallbackCredits(crp, ResourceProjectIds(rs))
  }

  /** The first loop of `analyze_engagement_data`: one credit per valid resource row. */
  method CreditResources(crp: seq<Project>, rs: seq<Resource>) returns (e: Engagement, withResources: set<Value>)
    ensures e == EngagementOf(ResourceCredits(crp, rs))
    ensures withResources == ResourceProjectIds(rs)
  {
    e := NoOne;
    withResources := {};
    var i := 0;
    while i < |rs|
      invariant 0 <= i <= |rs|
      invariant e == EngagementOf(ResourceCredits(crp, rs[..i]))
      invariant withResources == ResourceProjectIds(rs[..i])
    {
      var row := rs[i];
      ResourceStep(crp, rs, i);
      ghost var before := ResourceCredits(crp, rs[..i]);
      var person := Get(row.name, Null);
      var projectId := Get(row.projectId, Null);
      if Truthy(person) && Truthy(projectId) {
        withResources := withResources + {projectId};
        var a := RowAssignment(crp, row);
        assert ResourceCredits(crp, rs[..i + 1]) == before + [(person, a)];
        CreditSnoc(before, person, a);
        e := Credit(e, person, a);
      } else {
        assert ResourceCredits(crp, rs[..i + 1]) == before + [];
        assert before + [] == before;
      }
      i := i + 1;
    }
    assert rs[..i] == rs;
  }

  /** Crediting one more entry is one more step of the fold. */
  lemma CreditSnoc(before: seq<(Value, Assignment)>, person: Value, a: Assignment)
    ensures EngagementOf(before + [(person, a)]) == Credit(EngagementOf(before), person, a)
  {
    var after := before + [(person, a)];
    assert after[..|after| - 1] == before;
  }

  /** The credits and ids of one more resource row. */
  lemma ResourceStep(crp: seq<Project>, rs: seq<Resource>, i: int)
    requires 0 <= i < |rs|
    ensures ResourceCredits(crp, rs[..i + 1]) == ResourceCredits(crp, rs[..i])
      + (if ValidRow(rs[i]) then [(Get(rs[i].name, Null), RowAssignment(crp, rs[i]))] else [])
    ensures ResourceProjectIds(rs[..i + 1]) == ResourceProjectIds(rs[..i])
      + (if ValidRow(rs[i]) then {Get(rs[i].projectId, Null)} else {})
  {
    var next := rs[..i + 1];
    assert next[..|next| - 1] == rs[..i] && next[|next| - 1] == rs[i];
  }

  /** The fallback credits of one more project. */
  lemma FallbackStep(crp: seq<Project>, withResources: set<Value>, j: int)
    requires 0 <= j < |crp|
    ensures FallbackCredits(crp[..j + 1], withResources) == FallbackCredits(crp[..j], withResources)
      + (if NeedsFallback(withResources, crp[j]) then [FallbackCredit(crp[j])] else [])
  {
    var next := crp[..j + 1];
    assert next[..|next| - 1] == crp[..j] && next[|next| - 1] == crp[j];
  }

  /**
   * The second loop of `analyze_engagement_data`: one credit to the
   * coordinator of each project with an id and no valid rows.
   */
  method CreditFallbacks(crp: seq<Project>, withResources: set<Value>, e0: Engagement,
                         ghost done: seq<(Value, Assignment)>)
    returns (e: Engagement)
    requires e0 == EngagementOf(done)
    ensures e == EngagementOf(done + FallbackCredits(crp, withResources))
  {
    e := e0;
    assert done + FallbackCredits(crp[..0], withResources) == done;
    var j := 0;
    while j < |crp|
      invariant 0 <= j <= |crp|
      invariant e == EngagementOf(done + FallbackCredits(crp[..j], withResources))
    {
      var p := crp[j];
      FallbackStep(crp, withResources, j);
      ghost var fb := FallbackCredits(crp[..j], withResources);
      var projectId := Get(p.id, Null);
      if Truthy(projectId) && projectId !in withResources {
        var coordinator := FindCoordinator(p);
        if coordinator.Some? {
          var a := Assignment(Get(p.name, "Unknown Project"), projectId, Get(p.status, "Unknown"), FallbackRole);
          assert FallbackCredit(p) == (coordinator.value, a);
          assert FallbackCredits(crp[..j + 1], withResources) == fb + [(coordinator.value, a)];
          Regroup(done, fb, [(coordinator.value, a)]);
          CreditSnoc(done + fb, coordinator.value, a);
          e := Credit(e, coordinator.value, a);
        } else {
          assert FallbackCredits(crp[..j + 1], withResources) == fb + [];
          assert fb + [] == fb;
        }
      } else {
        assert FallbackCredits(crp[..j + 1], withResources) == fb + [];
        assert fb + [] == fb;
      }
      j := j + 1;
    }
    assert crp[..j] == crp;
  }

  /** The two loops of `analyze_engagement_data` that fill `engagement_by_person`. */
  method EngagementByPerson(crp: seq<Project>, rs: seq<Resource>) returns (e: Engagement)
    ensures e == EngagementOf(Credits(crp, rs))
  {
    var withResources;
    e, withResources := CreditResources(crp, rs);
    e := CreditFallbacks(crp, withResources, e, ResourceCredits(crp, rs));
  }

  /** The result of `analyze_engagement_data`. */
  datatype EngagementReport = EngagementReport(summary: Engagement, totalProjects: nat, totalPeople: nat,
                                               error: Option<string>)

  const ClientMissing: string := "ArcGIS client not available. Check credentials and configuration."
  const NoCrpProjects: string := "No CRP/Caribou projects found"

  function EngagementAnalysis(clientAvailable: bool, env: Env, projectsQuery: QueryOutcome<Project>,
                              resourcesQuery: string -> QueryOutcome<Resource>): EngagementReport
  {
    var crp := CrpProjects(clientAvailable, env, projectsQuery);
    if !clientAvailable then EngagementReport(NoOne, 0, 0, Some(ClientMissing))
    else if crp == [] then EngagementReport(NoOne, 0, 0, Some(NoCrpProjects))
    else
      var e := EngagementOf(Credits(crp, CrpResources(clientAvailable, env, crp, resourcesQuery)));
      EngagementReport(e, |crp|, |e.people|, None)
  }

  /** `analyze_engagement_data` (the statements after its final `return` are dead and not modelled). */
  method AnalyzeEngagementData(clientAvailable: bool, env: Env, projectsQuery: QueryOutcome<Project>,
                               resourcesQuery: string -> QueryOutcome<Resource>)
    returns (r: EngagementReport)
    ensures r == EngagementAnalysis(clientAvailable, env, projectsQuery, resourcesQuery)
  {
    if !clientAvailable {
      return EngagementReport(NoOne, 0, 0, Some(ClientMissing));
    }
    var crp := GetAllCrpProjects(clientAvailable, env, projectsQuery);
    if crp == [] {
      return EngagementReport(NoOne, 0, 0, Some(NoCrpProjects));
    }
    var resources := GetAllCrpResources(clientAvailable, env, crp, resourcesQuery);
    var e := EngagementByPerson(crp, resources);
    r := EngagementReport(e, |crp|, |e.people|, None);
  }

  /**
   * Without a client, or without CRP projects, the report is an error with
   * an empty summary and zero counts; otherwise it has no error, counts the
   * CRP projects, and counts each person of the summary once.
   */
  lemma AnalysisOutcomes(clientAvailable: bool, env: Env, projectsQuery: QueryOutcome<Project>,
                         resourcesQuery: string -> QueryOutcome<Resource>)
    ensures var r := EngagementAnalysis(clientAvailable, env, projectsQuery, resourcesQuery);
      var crp := CrpProjects(clientAvailable, env, projectsQuery);
      (!clientAvailable ==> r == EngagementReport(NoOne, 0, 0, Some(ClientMissing)))
      && (clientAvailable && crp == [] ==> r == EngagementReport(NoOne, 0, 0, Some(NoCrpProjects)))
      && (clientAvailable && crp != [] ==>
            r.error.None? && r.totalProjects == |crp| && r.totalPeople == |r.summary.people|
            && NoDuplicates(r.summary.people)
            && forall k :: k in r.summary.data <==> k in r.summary.people)
  {
    var crp := CrpProjects(clientAvailable, env, projectsQuery);
    if clientAvailable && crp != [] {
      EngagementConservation(Credits(crp, CrpResources(clientAvailable, env, crp, resourcesQuery)));
    }
  }

  // ------------------------------------------------- engagement, as grouped

  /** The roles of a list of entries. */
  function RolesOf(entries: seq<Assignment>): set<Value> {
    if entries == [] then {} else RolesOf(entries[..|entries| - 1]) + {entries[|entries| - 1].role}
  }

  function StatusesOf(entries: seq<Assignment>): (r: seq<string>)
    ensures |r| == |entries|
  {
    if entries == [] then [] else StatusesOf(entries[..|entries| - 1]) + [entries[|entries| - 1].status]
  }

  /** What a person's data holds when their entries are `entries`. */
  function PersonOf(entries: seq<Assignment>): PersonData {
    PersonData(|entries|, entries, RolesOf(entries), Tally(StatusesOf(entries)))
  }

  /**
   * The engagement is the grouping of the credits by person: the people in
   * order of first credit, each holding exactly their own entries in order.
   */
  lemma {:induction false} EngagementGrouped(credits: seq<(Value, Assignment)>)
    ensures EngagementOf(credits).people == GroupBy(credits).keys
    ensures forall k :: k in EngagementOf(credits).data <==> k in GroupBy(credits).groups
    ensures forall k :: k in EngagementOf(credits).data ==>
      EngagementOf(credits).data[k] == PersonOf(GroupBy(credits).groups[k])
  {
    if credits != [] {
      var prefix := credits[..|credits| - 1];
      var c := credits[|credits| - 1];
      EngagementGrouped(prefix);
      var g := GroupBy(prefix);
      var e := EngagementOf(prefix);
      assert EngagementOf(credits) == Credit(e, c.0, c.1);
      assert GroupBy(credits) == AddTo(g, c.0, c.1);
      var entries := if c.0 in g.groups then g.groups[c.0] else [];
      PersonSnoc(entries, c.1);
      assert (if c.0 in e.data then e.data[c.0] else NewPerson) == PersonOf(entries);
      assert [] + [c.1] == [c.1];
    }
  }

  /** Crediting one more entry to a person gives the data of the longer entry list. */
  lemma {:induction false} PersonSnoc(entries: seq<Assignment>, a: Assignment)
    ensures var d := PersonOf(entries);
      PersonOf(entries + [a]) == PersonData(d.total + 1, d.projects + [a], d.roles + {a.role}, Bump(d.statuses, a.status))
  {
    var next := entries + [a];
    assert next[..|next| - 1] == entries;
    assert StatusesOf(next)[..|entries|] == StatusesOf(entries);
  }

  /**
   * For each person the total is the number of entries, the status counts
   * add up to it, each status count is the number of entries with that
   * status, and the roles are exactly the roles of the entries.
   */
  lemma PersonConsistent(entries: seq<Assignment>)
    ensures PersonOf(entries).total == |PersonOf(entries).projects|
    ensures forall s :: s in PersonOf(entries).statuses ==> s in Distinct(StatusesOf(entries))
    ensures forall s :: s in Distinct(StatusesOf(entries)) ==> s in PersonOf(entries).statuses
    ensures SumValues(Distinct(StatusesOf(entries)), PersonOf(entries).statuses) == PersonOf(entries).total
    ensures forall role :: role in PersonOf(entries).roles <==> exists k :: 0 <= k < |entries| && entries[k].role == role
  {
    var ss := StatusesOf(entries);
    TallyCounts(ss);
    forall x | x in Tally(ss) ensures x in Distinct(ss) {
      var k :| 0 <= k < |ss| && ss[k] == x;
    }
    TalliedDistinct(ss);
    RolesOfMembers(entries);
  }

  lemma {:induction false} RolesOfMembers(entries: seq<Assignment>)
    ensures forall role :: role in RolesOf(entries) <==> exists k :: 0 <= k < |entries| && entries[k].role == role
  {
    if entries != [] {
      var prefix := entries[..|entries| - 1];
      RolesOfMembers(prefix);
      forall role | role in RolesOf(entries) ensures exists k :: 0 <= k < |entries| && entries[k].role == role {
        if role in RolesOf(prefix) {
          var k :| 0 <= k < |prefix| && prefix[k].role == role;
          assert entries[k] == prefix[k];
        } else {
          assert entries[|entries| - 1].role == role;
        }
      }
      forall role | exists k :: 0 <= k < |entries| && entries[k].role == role ensures role in RolesOf(entries) {
        var k :| 0 <= k < |entries| && entries[k].role == role;
        if k < |entries| - 1 {
          assert prefix[k] == entries[k];
        }
      }
    }
  }

  /** Sum of the persons' totals. */
  function TotalEngagement(people: seq<Value>, data: map<Value, PersonData>): nat
    requires forall k :: k in people ==> k in data
  {
    if people == [] then 0
    else TotalEngagement(people[..|people| - 1], data) + data[people[|people| - 1]].total
  }

  /**
   * Conservation: every person is listed once, every listed person has data,
   * and the totals add up to the number of credits.
   */
  lemma EngagementConservation(credits: seq<(Value, Assignment)>)
    ensures var e := EngagementOf(credits);
      NoDuplicates(e.people) && (forall k :: k in e.people <==> k in e.data)
      && TotalEngagement(e.people, e.data) == |credits|
  {
    var e := EngagementOf(credits);
    var g := GroupBy(credits);
    EngagementGrouped(credits);
    GroupByContents(credits);
    GroupBySizes(credits);
    TotalsAreSizes(e.people, e.data, g.groups);
  }

  lemma {:induction false} TotalsAreSizes(people: seq<Value>, data: map<Value, PersonData>,
                                          groups: map<Value, seq<Assignment>>)
    requires forall k :: k in people ==> k in data && k in groups && data[k] == PersonOf(groups[k])
    ensures TotalEngagement(people, data) == GroupSizes(people, groups)
  {
    if people != [] {
      TotalsAreSizes(people[..|people| - 1], data, groups);
    }
  }

  /**
   * The credits are one per valid resource row plus one per project that
   * needs the fallback, so the totals over all people add up to that sum.
   */
  lemma CreditsCount(crp: seq<Project>, rs: seq<Resource>)
    ensures |Credits(crp, rs)| ==
      |Filter(rs, ValidRow)| + |Filter(crp, p => NeedsFallback(ResourceProjectIds(rs), p))|
  {
  }

  /** A valid row whose project was not fetched is credited as 'Unknown Project' with status 'Unknown'. */
  lemma UnfetchedProject(crp: seq<Project>, r: Resource)
    requires forall k :: 0 <= k < |crp| ==> Get(crp[k].id, Null) != Get(r.projectId, Null)
    ensures RowAssignment(crp, r)
      == Assignment("Unknown Project", Get(r.projectId, Null), "Unknown", Get(r.resourceType, Str("Unknown")))
  {
  }

  /**
   * Every fallback credit goes to the first set coordinator field of a
   * project with an id but no valid rows, with the role
   * 'Coordinator (default)'.
   */
  lemma {:induction false} FallbackCreditsSpec(crp: seq<Project>, w: set<Value>)
    ensures forall c :: c in FallbackCredits(crp, w) ==>
      c.1.role == FallbackRole && Truthy(c.1.projectId) && c.1.projectId !in w && Truthy(c.0)
      && exists p :: p in crp && c.1.projectId == Get(p.id, Null) && Some(c.0) == FirstTruthy(CoordinatorFields(p))
  {
    if crp != [] {
      var prefix := crp[..|crp| - 1];
      FallbackCreditsSpec(prefix, w);
      forall c | c in FallbackCredits(crp, w)
        ensures exists p :: p in crp && c.1.projectId == Get(p.id, Null) && Some(c.0) == FirstTruthy(CoordinatorFields(p))
      {
        if c in FallbackCredits(prefix, w) {
          var p :| p in prefix && c.1.projectId == Get(p.id, Null) && Some(c.0) == FirstTruthy(CoordinatorFields(p));
          assert p in crp;
        } else {
          assert crp[|crp| - 1] in crp;
        }
      }
    }
  }

  /** A project with valid resource rows never gets the fallback. */
  lemma NoFallbackWithRows(rs: seq<Resource>, p: Project)
    requires Get(p.id, Null) in ResourceProjectIds(rs)
    ensures !NeedsFallback(ResourceProjectIds(rs), p)
  {
  }

  // ----------------------------------------------------------- histograms

  /** The items of the engagement dictionary, in insertion order. */
  function Items(e: Engagement): (r: seq<(Value, PersonData)>)
    requires forall k :: k in e.people ==> k in e.data
    ensures |r| == |e.people|
    decreases |e.people|
  {
    if e.people == [] then []
    else
      var last := e.people[|e.people| - 1];
      Items(Engagement(e.people[..|e.people| - 1], e.data)) + [(last, e.data[last])]
  }

  /** The workload bucket of a person's total. */
  function WorkloadBucket(total: nat): string {
    if total <= 1 then "1 project"
    else if total <= 2 then "2 projects"
    else if total <= 3 then "3 projects"
    else if total <= 4 then "4 projects"
    else "5+ projects"
  }

  const WorkloadLabels: seq<string> := ["1 project", "2 projects", "3 projects", "4 projects", "5+ projects"]

  lemma BucketLabelled(total: nat)
    ensures WorkloadBucket(total) in WorkloadLabels
  {
    var w := WorkloadBucket(total);
    assert w == WorkloadLabels[if total <= 1 then 0 else if total <= 4 then total - 1 else 4];
  }

  /** The bucket of each person, in order. */
  function Workloads(items: seq<(Value, PersonData)>): (r: seq<string>)
    ensures |r| == |items|
  {
    if items == [] then [] else Workloads(items[..|items| - 1]) + [WorkloadBucket(items[|items| - 1].1.total)]
  }

  lemma {:induction false} WorkloadsAt(items: seq<(Value, PersonData)>)
    ensures forall k :: 0 <= k < |items| ==> Workloads(items)[k] == WorkloadBucket(items[k].1.total)
  {
    if items != [] {
      WorkloadsAt(items[..|items| - 1]);
    }
  }

  /** Appending one element to a counted sequence: first-occurrence order and counter both take one step. */
  lemma DistinctTallySnoc<T>(s: seq<T>, x: T)
    ensures Distinct(s + [x]) == if x in Tally(s) then Distinct(s) else Distinct(s) + [x]
    ensures Tally(s + [x]) == Bump(Tally(s), x)
  {
    assert (s + [x])[..|s|] == s;
    TallyCounts(s);
    if x in Distinct(s) {
      var k :| 0 <= k < |Distinct(s)| && Distinct(s)[k] == x;
    }
  }

  /** `get_workload_distribution`: the buckets in order of first use and their counts. */
  method WorkloadDistribution(items: seq<(Value, PersonData)>) returns (labels: seq<string>, counts: map<string, nat>)
    ensures labels == Distinct(Workloads(items)) && counts == Tally(Workloads(items))
  {
    labels, counts := [], map[];
    var i := 0;
    while i < |items|
      invariant 0 <= i <= |items|
      invariant labels == Distinct(Workloads(items[..i])) && counts == Tally(Workloads(items[..i]))
    {
      var category := WorkloadBucket(items[i].1.total);
      WorkloadsStep(items, i);
      DistinctTallySnoc(Workloads(items[..i]), category);
      ghost var next := Tally(Workloads(items[..i + 1]));
      assert next == Bump(counts, category);
      if category !in counts {
        labels := labels + [category];
      }
      counts := counts[category := (if category in counts then counts[category] else 0) + 1];
      assert counts == next;
      i := i + 1;
    }
    assert items[..i] == items;
  }

  lemma WorkloadsStep(items: seq<(Value, PersonData)>, i: int)
    requires 0 <= i < |items|
    ensures Workloads(items[..i + 1]) == Workloads(items[..i]) + [WorkloadBucket(items[i].1.total)]
  {
    var next := items[..i + 1];
    assert next[..|next| - 1] == items[..i] && next[|next| - 1] == items[i];
  }

  /**
   * Every person lands in exactly one bucket: only the five labels appear,
   * each with a positive count, and the counts add up to the number of
   * people.
   */
  lemma WorkloadTotals(items: seq<(Value, PersonData)>)
    ensures var ws := Workloads(items);
      (forall x :: x in Tally(ws) ==> x in WorkloadLabels && Tally(ws)[x] > 0)
      && (forall x :: x in Distinct(ws) ==> x in Tally(ws))
      && SumValues(Distinct(ws), Tally(ws)) == |items|
  {
    var ws := Workloads(items);
    WorkloadsAt(items);
    TallyCounts(ws);
    forall x | x in Tally(ws) ensures x in WorkloadLabels && Tally(ws)[x] > 0 {
      var k :| 0 <= k < |ws| && ws[k] == x;
      BucketLabelled(items[k].1.total);
      CountPositive(ws, x);
    }
    TalliedDistinct(ws);
  }

  /** Summing a tally over the distinct elements gives the length. */
  lemma TalliedDistinct<T>(ws: seq<T>)
    ensures forall x :: x in Distinct(ws) ==> x in Tally(ws)
    ensures SumValues(Distinct(ws), Tally(ws)) == |ws|
  {
    TallyCounts(ws);
    forall x | x in Distinct(ws) ensures x in Tally(ws) && Tally(ws)[x] == Count(ws, x) {
      var k :| 0 <= k < |Distinct(ws)| && Distinct(ws)[k] == x;
    }
    SumValuesCounts(Distinct(ws), Tally(ws), ws);
    SumCountsDistinct(ws);
  }

  const RoleKeys: seq<string> := ["Coordinator", "Other", "Both"]

  /** The role class of a person: 'Both', 'Coordinator' or 'Other'. */
  function RoleClass(roles: set<Value>): string {
    if Str("Coordinator") in roles && Str("Other") in roles then "Both"
    else if Str("Coordinator") in roles then "Coordinator"
    else "Other"
  }

  /** The role class of each person, in order. */
  function RoleClasses(items: seq<(Value, PersonData)>): (r: seq<string>)
    ensures |r| == |items|
    ensures forall x :: x in r ==> x in RoleKeys
  {
    if items == [] then [] else RoleClasses(items[..|items| - 1]) + [RoleClass(items[|items| - 1].1.roles)]
  }

  lemma NoRolesCounted()
    ensures Counter(RoleKeys, []) == map["Coordinator" := 0, "Other" := 0, "Both" := 0]
  {
  }

  lemma RoleClassesStep(items: seq<(Value, PersonData)>, i: int)
    requires 0 <= i < |items|
    ensures RoleClasses(items[..i + 1]) == RoleClasses(items[..i]) + [RoleClass(items[i].1.roles)]
    ensures RoleClass(items[i].1.roles) in RoleKeys
  {
    var next := items[..i + 1];
    assert next[..|next| - 1] == items[..i] && next[|next| - 1] == items[i];
  }

  /** `get_role_distribution`: a counter with the three fixed keys. */
  method RoleDistribution(items: seq<(Value, PersonData)>) returns (stats: map<string, nat>)
    ensures stats == Counter(RoleKeys, RoleClasses(items))
  {
    stats := map["Coordinator" := 0, "Other" := 0, "Both" := 0];
    NoRolesCounted();
    assert items[..0] == [];
    var i := 0;
    while i < |items|
      invariant 0 <= i <= |items|
      invariant stats == Counter(RoleKeys, RoleClasses(items[..i]))
    {
      var c := RoleClass(items[i].1.roles);
      RoleClassesStep(items, i);
      BumpCounter(RoleKeys, RoleClasses(items[..i]), c);
      ghost var next := Counter(RoleKeys, RoleClasses(items[..i + 1]));
      assert next == Bump(stats, c);
      assert c in stats;
      stats := stats[c := stats[c] + 1];
      assert stats == next;
      i := i + 1;
    }
    assert items[..i] == items;
  }

  /** The role counts always have the three keys and add up to the number of people. */
  lemma RoleTotals(items: seq<(Value, PersonData)>)
    ensures var stats := Counter(RoleKeys, RoleClasses(items));
      (forall x :: x in stats <==> x in RoleKeys) && SumValues(RoleKeys, stats) == |items|
  {
    assert NoDuplicates(RoleKeys);
    CounterTotal(RoleKeys, RoleClasses(items));
  }

  /** A person credited only by the fallback counts as 'Other', not 'Coordinator'. */
  lemma FallbackOnlyIsOther()
    ensures RoleClass({FallbackRole}) == "Other"
  {
    assert Str("Coordinator") != FallbackRole;
  }

  // ------------------------------------------------------------- rankings

  /** The sort key of `sorted(..., key=count, reverse=True)`: larger counts first. */
  function Descending<T>(count: T -> nat): T -> Rank {
    x => Finite(-(count(x) as int))
  }

  /** `sorted(items, key=count, reverse=True)[:limit]`: descending and stable, then the first `limit`. */
  function TopByCount<T>(items: seq<T>, count: T -> nat, limit: int): seq<T> {
    Take(SortBy(items, Descending(count)), limit)
  }

  /** The ranking takes `min(limit, n)` entries of the input for a non-negative limit. */
  lemma TopByCountSize<T>(items: seq<T>, count: T -> nat, limit: int)
    requires 0 <= limit
    ensures |TopByCount(items, count, limit)| == if limit <= |items| then limit else |items|
    ensures multiset(TopByCount(items, count, limit)) <= multiset(items)
  {
    var sorted := SortBy(items, Descending(count));
    SortByPermutes(items, Descending(count));
    assert |sorted| == |items| by {
      assert |multiset(sorted)| == |multiset(items)|;
    }
    var top := TopByCount(items, count, limit);
    if limit <= |sorted| {
      assert top == sorted[..limit];
      assert sorted == top + sorted[limit..];
      assert multiset(sorted) == multiset(top) + multiset(sorted[limit..]);
    } else {
      assert top == sorted;
    }
  }

  /** The ranking is in non-increasing order of count. */
  lemma TopByCountOrdered<T>(items: seq<T>, count: T -> nat, limit: int)
    ensures var top := TopByCount(items, count, limit);
      forall i, j :: 0 <= i < j < |top| ==> count(top[i]) >= count(top[j])
  {
    var sorted := SortBy(items, Descending(count));
    SortBySorted(items, Descending(count));
    var top := TopByCount(items, count, limit);
    forall i, j | 0 <= i < j < |top| ensures count(top[i]) >= count(top[j]) {
      assert top[i] == sorted[i] && top[j] == sorted[j];
      assert RankLe(Descending(count)(sorted[i]), Descending(count)(sorted[j]));
    }
  }

  /** Entries with equal counts keep their input order (Python's sort is stable, also in reverse). */
  lemma TopByCountStable<T>(items: seq<T>, count: T -> nat)
    ensures forall k :: WithKey(SortBy(items, Descending(count)), Descending(count), k)
                        == WithKey(items, Descending(count), k)
  {
    forall k ensures WithKey(SortBy(items, Descending(count)), Descending(count), k)
                     == WithKey(items, Descending(count), k) {
      SortByStable(items, Descending(count), k);
    }
  }

  /** `get_top_engaged_people`. */
  function TopEngagedPeople(items: seq<(Value, PersonData)>, limit: int): seq<(Value, PersonData)> {
    TopByCount(items, (x: (Value, PersonData)) => x.1.total, limit)
  }

  // ------------------------------------------------------------- clients

  /** One entry of a client's `projects` list. */
  datatype ClientProject = ClientProject(name: string, number: Value, status: string, projectId: Value)

  datatype ClientData = ClientData(total: nat, projects: seq<ClientProject>, statuses: map<string, nat>)

  /** `client_engagement`: the clients in insertion order and their data. */
  datatype ClientSummary = ClientSummary(clients: seq<Value>, data: map<Value, ClientData>)

  /** A project counts for a client unless its client name is falsy or 'Unknown Client'. */
  predicate HasClient(p: Project) {
    var c := Get(p.clientName, Str("Unknown Client"));
    Truthy(c) && c != Str("Unknown Client")
  }

  function ClientEntry(p: Project): (Value, ClientProject) {
    (Get(p.clientName, Str("Unknown Client")),
     ClientProject(Get(p.name, "Unknown Project"), Get(p.number, Str("N/A")), Get(p.status, "Unknown"),
                   Get(p.id, Str("N/A"))))
  }

  function ClientCredits(crp: seq<Project>): (r: seq<(Value, ClientProject)>)
    ensures |r| == |Filter(crp, HasClient)|
  {
    if crp == [] then []
    else ClientCredits(crp[..|crp| - 1]) + (if HasClient(crp[|crp| - 1]) then [ClientEntry(crp[|crp| - 1])] else [])
  }

  function AddClientProject(s: ClientSummary, client: Value, cp: ClientProject): ClientSummary {
    var d := if client in s.data then s.data[client] else ClientData(0, [], map[]);
    ClientSummary(if client in s.data then s.clients else s.clients + [client],
                  s.data[client := ClientData(d.total + 1, d.projects + [cp], Bump(d.statuses, cp.status))])
  }

  function ClientsOf(pairs: seq<(Value, ClientProject)>): ClientSummary {
    if pairs == [] then ClientSummary([], map[])
    else AddClientProject(ClientsOf(pairs[..|pairs| - 1]), pairs[|pairs| - 1].0, pairs[|pairs| - 1].1)
  }

  /** The per-client loop of `analyze_client_engagement`. */
  method ClientEngagementLoop(crp: seq<Project>) returns (s: ClientSummary)
    ensures s == ClientsOf(ClientCredits(crp))
  {
    s := ClientSummary([], map[]);
    var i := 0;
    while i < |crp|
      invariant 0 <= i <= |crp|
      invariant s == ClientsOf(ClientCredits(crp[..i]))
    {
      var p := crp[i];
      assert crp[..i + 1][..i] == crp[..i];
      var client := Get(p.clientName, Str("Unknown Client"));
      ghost var before := ClientCredits(crp[..i]);
      if Truthy(client) && client != Str("Unknown Client") {
        assert ClientCredits(crp[..i + 1]) == before + [ClientEntry(p)];
        assert (before + [ClientEntry(p)])[..|before|] == before;
        s := AddClientProject(s, client, ClientEntry(p).1);
      } else {
        assert ClientCredits(crp[..i + 1]) == before;
      }
      i := i + 1;
    }
    assert crp[..i] == crp;
  }

  function ClientStatuses(cps: seq<ClientProject>): (r: seq<string>)
    ensures |r| == |cps|
  {
    if cps == [] then [] else ClientStatuses(cps[..|cps| - 1]) + [cps[|cps| - 1].status]
  }

  function ClientOf(cps: seq<ClientProject>): ClientData {
    ClientData(|cps|, cps, Tally(ClientStatuses(cps)))
  }

  /** The client summary is the grouping of the counted projects by client. */
  lemma {:induction false} ClientsGrouped(pairs: seq<(Value, ClientProject)>)
    ensures ClientsOf(pairs).clients == GroupBy(pairs).keys
    ensures forall k :: k in ClientsOf(pairs).data <==> k in GroupBy(pairs).groups
    ensures forall k :: k in ClientsOf(pairs).data ==> ClientsOf(pairs).data[k] == ClientOf(GroupBy(pairs).groups[k])
  {
    if pairs != [] {
      var prefix := pairs[..|pairs| - 1];
      var c := pairs[|pairs| - 1];
      ClientsGrouped(prefix);
      var g := GroupBy(prefix);
      var e := ClientsOf(prefix);
      assert ClientsOf(pairs) == AddClientProject(e, c.0, c.1);
      assert GroupBy(pairs) == AddTo(g, c.0, c.1);
      var cps := if c.0 in g.groups then g.groups[c.0] else [];
      ClientSnoc(cps, c.1);
      assert (if c.0 in e.data then e.data[c.0] else ClientData(0, [], map[])) == ClientOf(cps);
      assert [] + [c.1] == [c.1];
    }
  }

  /** One more project for a client gives the data of the longer project list. */
  lemma {:induction false} ClientSnoc(cps: seq<ClientProject>, cp: ClientProject)
    ensures var d := ClientOf(cps);
      ClientOf(cps + [cp]) == ClientData(d.total + 1, d.projects + [cp], Bump(d.statuses, cp.status))
  {
    var next := cps + [cp];
    assert next[..|next| - 1] == cps;
    assert ClientStatuses(next)[..|cps|] == ClientStatuses(cps);
  }

  function TotalClientProjects(clients: seq<Value>, data: map<Value, ClientData>): nat
    requires forall k :: k in clients ==> k in data
  {
    if clients == [] then 0
    else TotalClientProjects(clients[..|clients| - 1], data) + data[clients[|clients| - 1]].total
  }

  lemma {:induction false} ClientTotalsAreSizes(clients: seq<Value>, data: map<Value, ClientData>,
                                                groups: map<Value, seq<ClientProject>>)
    requires forall k :: k in clients ==> k in data && k in groups && data[k] == ClientOf(groups[k])
    ensures TotalClientProjects(clients, data) == GroupSizes(clients, groups)
  {
    if clients != [] {
      ClientTotalsAreSizes(clients[..|clients| - 1], data, groups);
    }
  }

  /**
   * Every client is listed once and has data, and each client's data is
   * that of its own projects in order.
   */
  lemma ClientsListed(crp: seq<Project>)
    ensures var s := ClientsOf(ClientCredits(crp));
      NoDuplicates(s.clients) && (forall k :: k in s.clients <==> k in s.data)
      && (forall k :: k in s.data ==> s.data[k] == ClientOf(s.data[k].projects))
  {
    var pairs := ClientCredits(crp);
    ClientsGrouped(pairs);
    GroupByContents(pairs);
  }

  /**
   * The totals over all clients are the number of projects with a client,
   * at most the number of CRP projects.
   */
  lemma ClientConservation(crp: seq<Project>)
    ensures var s := ClientsOf(ClientCredits(crp));
      (forall k :: k in s.clients ==> k in s.data)
      && TotalClientProjects(s.clients, s.data) == |Filter(crp, HasClient)| <= |crp|
  {
    var pairs := ClientCredits(crp);
    var s := ClientsOf(pairs);
    ClientsGrouped(pairs);
    GroupBySizes(pairs);
    ClientTotalsAreSizes(s.clients, s.data, GroupBy(pairs).groups);
  }

  /** A client's total is the number of its projects, and its status counts add up to it. */
  lemma ClientConsistent(cps: seq<ClientProject>)
    ensures ClientOf(cps).total == |ClientOf(cps).projects|
    ensures forall x :: x in Distinct(ClientStatuses(cps)) ==> x in ClientOf(cps).statuses
    ensures SumValues(Distinct(ClientStatuses(cps)), ClientOf(cps).statuses) == ClientOf(cps).total
  {
    TalliedDistinct(ClientStatuses(cps));
  }

  /** The result of `analyze_client_engagement`. */
  datatype ClientReport = ClientReport(summary: ClientSummary, totalProjects: nat, totalClients: nat,
                                       error: Option<string>)

  function ClientAnalysis(clientAvailable: bool, env: Env, projectsQuery: QueryOutcome<Project>): ClientReport {
    var crp := CrpProjects(clientAvailable, env, projectsQuery);
    if crp == [] then ClientReport(ClientSummary([], map[]), 0, 0, Some(NoCrpProjects))
    else
      var s := ClientsOf(ClientCredits(crp));
      ClientReport(s, |crp|, |s.clients|, None)
  }

  /** `analyze_client_engagement`. */
  method AnalyzeClientEngagement(clientAvailable: bool, env: Env, projectsQuery: QueryOutcome<Project>)
    returns (r: ClientReport)
    ensures r == ClientAnalysis(clientAvailable, env, projectsQuery)
  {
    var crp := GetAllCrpProjects(clientAvailable, env, projectsQuery);
    if crp == [] {
      return ClientReport(ClientSummary([], map[]), 0, 0, Some(NoCrpProjects));
    }
    var s := ClientEngagementLoop(crp);
    r := ClientReport(s, |crp|, |s.clients|, None);
  }

  function ClientItems(s: ClientSummary): (r: seq<(Value, ClientData)>)
    requires forall k :: k in s.clients ==> k in s.data
    ensures |r| == |s.clients|
    decreases |s.clients|
  {
    if s.clients == [] then []
    else
      var last := s.clients[|s.clients| - 1];
      ClientItems(ClientSummary(s.clients[..|s.clients| - 1], s.data)) + [(last, s.data[last])]
  }

  /** `get_top_clients`. */
  function TopClients(items: seq<(Value, ClientData)>, topN: int): seq<(Value, ClientData)> {
    TopByCount(items, (x: (Value, ClientData)) => x.1.total, topN)
  }

  // -------------------------------------------------------- configuration

  const RequiredVars: seq<string> :=
    ["GSS_PROJECTS_TABLE_URL", "GSS_RESOURCES_TABLE_URL", "ARCGIS_USERNAME", "ARCGIS_PASSWORD"]

  datatype ConfigReport = ConfigReport(isValid: bool, missingVars: seq<string>, clientAvailable: bool)

  /** `validate_configuration`. */
  function ValidateConfiguration(env: Env, clientAvailable: bool): (r: ConfigReport)
    ensures forall v :: v in r.missingVars <==> v in RequiredVars && !EnvSet(env, v)
    ensures r.isValid <==> forall v :: v in RequiredVars ==> EnvSet(env, v)
    ensures r.isValid <==> r.missingVars == []
    ensures r.clientAvailable == clientAvailable
  {
    var missing := Filter(RequiredVars, v => !EnvSet(env, v));
    FilterMembers(RequiredVars, v => !EnvSet(env, v));
    assert |missing| > 0 ==> missing[0] in missing;
    ConfigReport(|missing| == 0, missing, clientAvailable)
  }
}
