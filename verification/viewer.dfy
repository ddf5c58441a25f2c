/**
 * The project viewer object: the project list and the override dictionary it
 * holds, the status edits and resets that change them, the look-ups and
 * category views that read them, and the portfolio counters.
 *
 * Loading the two lists from disk and saving the overrides are I/O: the
 * loaded values and the outcome of a save are parameters here.
 */
module Viewer {
  import opened PyValues
  import opened Records
  import opened Dates
  import opened Collections
  import opened Classifiers
  import opened Overrides

  // ---------------------------------------------------- portfolio metrics

  /** What `get_project_metrics` gives: `{}`, the exception of a project it cannot count, or the counters. */
  datatype Metrics =
    | NoProjects
    | MetricsError(error: Exception)
    | Metrics(total: nat, phases: map<Phase, nat>, risks: map<RiskLevel, nat>, health: map<Color, nat>,
              overdue: nat, atRisk: nat, onTrack: int)

  /** What the counters read from one project: its phase, risk level, health and variance. */
  datatype Assessment = Assessment(phase: Phase, level: RiskLevel, health: Color, varianceDays: int)

  /**
   * The three classifier calls of the loop body in their order: the phase,
   * the risk level, then the schedule performance; the first that raises
   * decides the exception.
   */
  function Assess(p: Project, now: int): Outcome<Assessment> {
    match ProjectPhase(p, now)
    case Raises(e) => Raises(e)
    case Returns(phase) =>
      match RiskLevelOf(p, now)
      case Raises(e) => Raises(e)
      case Returns(risk) =>
        match SchedulePerformance(p, now)
        case Raises(e) => Raises(e)
        case Returns(perf) => Returns(Assessment(phase, risk.level, perf.health, perf.varianceDays))
  }

  const HealthColors: seq<Color> := [Green, Yellow, Red]

  /**
   * The exception counting one assessed project raises: one from its
   * classifiers, or `KeyError` for a health without a counter.
   */
  function StepOf(a: Outcome<Assessment>): Option<Exception> {
    match a
    case Raises(e) => Some(e)
    case Returns(x) => if x.health in HealthColors then None else Some(KeyError)
  }

  function StepError(p: Project, now: int): Option<Exception> {
    StepOf(Assess(p, now))
  }

  /** The classifier outcomes of the projects, in list order. */
  function Outcomes(ps: seq<Project>, now: int): (r: seq<Outcome<Assessment>>)
    ensures |r| == |ps| && forall i :: 0 <= i < |ps| ==> r[i] == Assess(ps[i], now)
  {
    seq(|ps|, i requires 0 <= i < |ps| => Assess(ps[i], now))
  }

  /**
   * Counting assessed projects in order: the exception of the first one
   * that raises, or the assessments of all of them.
   */
  function CountOutcomes(os: seq<Outcome<Assessment>>): (r: Outcome<seq<Assessment>>)
    ensures r.Returns? ==> |r.value| == |os| && AllCounted(r.value)
  {
    if os == [] then Returns([])
    else
      match CountOutcomes(os[..|os| - 1])
      case Raises(e) => Raises(e)
      case Returns(xs) =>
        match os[|os| - 1]
        case Raises(e) => Raises(e)
        case Returns(x) => if x.health in HealthColors then Returns(xs + [x]) else Raises(KeyError)
  }

  /** A count gets through exactly when no step raises. */
  lemma {:induction false} CountReturns(os: seq<Outcome<Assessment>>)
    ensures CountOutcomes(os).Returns? <==> forall i :: 0 <= i < |os| ==> StepOf(os[i]).None?
  {
    if os != [] {
      var n := |os| - 1;
      var init := os[..n];
      CountReturns(init);
      if forall i :: 0 <= i < |os| ==> StepOf(os[i]).None? {
        forall i | 0 <= i < n
          ensures StepOf(init[i]).None?
        {
          assert init[i] == os[i];
        }
      }
      if CountOutcomes(os).Returns? {
        forall i | 0 <= i < |os|
          ensures StepOf(os[i]).None?
        {
          if i < n {
            assert init[i] == os[i];
          }
        }
      }
    }
  }

  /** A count that gets through holds, at each position, that step's assessment. */
  lemma {:induction false} CountValues(os: seq<Outcome<Assessment>>)
    requires CountOutcomes(os).Returns?
    ensures forall i :: 0 <= i < |os| ==> os[i] == Returns(CountOutcomes(os).value[i])
  {
    if os != [] {
      var n := |os| - 1;
      var init := os[..n];
      var xs := CountOutcomes(init).value;
      CountValues(init);
      var x := os[n].value;
      assert CountOutcomes(os).value == xs + [x];
      forall i | 0 <= i < n
        ensures os[i] == Returns((xs + [x])[i])
      {
        assert init[i] == os[i];
      }
    }
  }

  /** A count that raises raises the exception of the first step that raises. */
  lemma {:induction false} CountRaises(os: seq<Outcome<Assessment>>)
    requires CountOutcomes(os).Raises?
    ensures exists i :: 0 <= i < |os| && StepOf(os[i]) == Some(CountOutcomes(os).error)
                        && forall j :: 0 <= j < i ==> StepOf(os[j]).None?
  {
    var n := |os| - 1;
    var init := os[..n];
    assert forall i :: 0 <= i < n ==> init[i] == os[i];
    if CountOutcomes(init).Raises? {
      CountRaises(init);
      var i :| 0 <= i < n && StepOf(init[i]) == Some(CountOutcomes(init).error)
        && forall j :: 0 <= j < i ==> StepOf(init[j]).None?;
      assert StepOf(os[i]) == Some(CountOutcomes(os).error);
    } else {
      CountReturns(init);
      assert StepOf(os[n]) == Some(CountOutcomes(os).error);
      assert forall j :: 0 <= j < n ==> StepOf(init[j]).None?;
    }
  }

  /** Counting a prefix that raises: the whole count raises the same exception. */
  lemma {:induction false} CountPrefix(os: seq<Outcome<Assessment>>, k: nat)
    requires k <= |os| && CountOutcomes(os[..k]).Raises?
    ensures CountOutcomes(os) == CountOutcomes(os[..k])
  {
    if k < |os| {
      var n := |os| - 1;
      assert os[..n][..k] == os[..k];
      CountPrefix(os[..n], k);
    } else {
      assert os[..k] == os;
    }
  }

  function PhasesOf(xs: seq<Assessment>): (r: seq<Phase>)
    ensures |r| == |xs|
  {
    if xs == [] then [] else PhasesOf(xs[..|xs| - 1]) + [xs[|xs| - 1].phase]
  }

  function LevelsOf(xs: seq<Assessment>): (r: seq<RiskLevel>)
    ensures |r| == |xs|
  {
    if xs == [] then [] else LevelsOf(xs[..|xs| - 1]) + [xs[|xs| - 1].level]
  }

  function HealthsOf(xs: seq<Assessment>): (r: seq<Color>)
    ensures |r| == |xs|
  {
    if xs == [] then [] else HealthsOf(xs[..|xs| - 1]) + [xs[|xs| - 1].health]
  }

  /** Where a variance falls for the overdue and at-risk counters. */
  datatype Lateness = Late | DueSoon | Later

  function LatenessOf(varianceDays: int): Lateness {
    if varianceDays < 0 then Late else if varianceDays <= 7 then DueSoon else Later
  }

  function LatenessesOf(xs: seq<Assessment>): (r: seq<Lateness>)
    ensures |r| == |xs|
  {
    if xs == [] then [] else LatenessesOf(xs[..|xs| - 1]) + [LatenessOf(xs[|xs| - 1].varianceDays)]
  }

  /** Each projection holds, at each position, the field of that assessment. */
  lemma {:induction false} ProjectionsAt(xs: seq<Assessment>, i: int)
    requires 0 <= i < |xs|
    ensures PhasesOf(xs)[i] == xs[i].phase && LevelsOf(xs)[i] == xs[i].level
    ensures HealthsOf(xs)[i] == xs[i].health && LatenessesOf(xs)[i] == LatenessOf(xs[i].varianceDays)
  {
    if i < |xs| - 1 {
      ProjectionsAt(xs[..|xs| - 1], i);
    }
  }

  const AllPhases: seq<Phase> := [Initiating, Planning, Executing, Monitoring, Closing]
  const AllRiskLevels: seq<RiskLevel> := [Low, Medium, High]

  lemma PhaseListed(ph: Phase)
    ensures ph in AllPhases
  {
    match ph
    case Initiating => case Planning => case Executing => case Monitoring => case Closing =>
  }

  lemma LevelListed(l: RiskLevel)
    ensures l in AllRiskLevels
  {
    match l
    case Low => case Medium => case High =>
  }

  /** The counters over a list of assessments. */
  function MetricsOf(xs: seq<Assessment>): Metrics {
    var overdue := Count(LatenessesOf(xs), Late);
    var atRisk := Count(LatenessesOf(xs), DueSoon);
    Metrics(|xs|, Counter(AllPhases, PhasesOf(xs)), Counter(AllRiskLevels, LevelsOf(xs)),
            Counter(HealthColors, HealthsOf(xs)), overdue, atRisk, |xs| - overdue - atRisk)
  }

  /** Every assessment has a health the counters have a key for. */
  predicate AllCounted(xs: seq<Assessment>) {
    forall i :: 0 <= i < |xs| ==> xs[i].health in HealthColors
  }

  /** What `get_project_metrics` returns, or raises, for a project list. */
  function PortfolioMetrics(ps: seq<Project>, now: int): Metrics {
    if ps == [] then NoProjects
    else
      match CountOutcomes(Outcomes(ps, now))
      case Raises(e) => MetricsError(e)
      case Returns(xs) => MetricsOf(xs)
  }

  /**
   * The metrics raise exactly when counting some project raises, and the
   * exception is the one of the first such project in list order.
   */
  lemma MetricsRaises(ps: seq<Project>, now: int)
    ensures PortfolioMetrics(ps, now).MetricsError? <==>
      exists i :: 0 <= i < |ps| && StepError(ps[i], now).Some?
    ensures PortfolioMetrics(ps, now).MetricsError? ==>
      exists i :: 0 <= i < |ps| && StepError(ps[i], now) == Some(PortfolioMetrics(ps, now).error)
        && forall j :: 0 <= j < i ==> StepError(ps[j], now).None?
  {
    var os := Outcomes(ps, now);
    CountReturns(os);
    if CountOutcomes(os).Raises? {
      CountRaises(os);
    }
  }

  /**
   * Which exception counting one project raises.  The phase converts the
   * request date of an assigned project first, then the schedule converts
   * the request date and the required date when both are set; a date that
   * is not a number raises `TypeError`, one out of range `ValueError`.
   * Next the risk level takes the team size, which raises `TypeError` for a
   * team value without a length.  A project whose classifiers return raises
   * `KeyError` exactly when it lacks one of the two dates, its health being
   * 'gray'.
   */
  lemma {:induction false} StepErrorCases(p: Project, now: int)
    ensures var requested := Get(p.dateRequested, Int(0));
      var required := Get(p.dateRequired, Int(0));
      var dated := Truthy(requested) && Truthy(required);
      StepError(p, now) ==
        if (StatusText(p) == "assigned" || dated) && Truthy(requested) && !Timestamped(requested) then
          Some(if requested.Int? then ValueError else TypeError)
        else if dated && !Timestamped(required) then
          Some(if required.Int? then ValueError else TypeError)
        else if p.teamMembers.TeamOther? then Some(TypeError)
        else if !dated then Some(KeyError)
        else None
  {
    ScheduleBands(p, now);
    if StatusText(p) == "assigned" {
      AssignedPhase(p, now);
    }
  }

  /**
   * When every date that is set is a timestamp in range and every team
   * value has a length, the metrics raise `KeyError` exactly when some
   * project lacks one of its two dates.
   */
  lemma {:induction false} MetricsKeyError(ps: seq<Project>, now: int)
    ensures (forall i :: 0 <= i < |ps| ==> FieldsConvert(ps[i])) ==>
      (PortfolioMetrics(ps, now) == MetricsError(KeyError) <==>
        exists i :: 0 <= i < |ps| &&
          (!Truthy(Get(ps[i].dateRequested, Int(0))) || !Truthy(Get(ps[i].dateRequired, Int(0)))))
  {
    if forall i :: 0 <= i < |ps| ==> FieldsConvert(ps[i]) {
      MetricsRaises(ps, now);
      forall i | 0 <= i < |ps|
        ensures StepError(ps[i], now) ==
          if !Truthy(Get(ps[i].dateRequested, Int(0))) || !Truthy(Get(ps[i].dateRequired, Int(0)))
          then Some(KeyError) else None
      {
        StepErrorCases(ps[i], now);
      }
    }
  }

  /** Each of the two dates is unset or a timestamp in range, and the team value has a length. */
  predicate FieldsConvert(p: Project) {
    var requested := Get(p.dateRequested, Int(0));
    var required := Get(p.dateRequired, Int(0));
    (!Truthy(requested) || Timestamped(requested)) && (!Truthy(required) || Timestamped(required))
    && !p.teamMembers.TeamOther?
  }

  /** What the schedule bands say about one assessment. */
  predicate BandedAssessment(x: Assessment) {
    (x.health == Gray && x.varianceDays == 0)
    || (x.health == Red && x.varianceDays < 0)
    || (x.health == Yellow && 0 <= x.varianceDays <= 7)
    || (x.health == Green && x.varianceDays > 7)
  }

  lemma AssessmentsBanded(ps: seq<Project>, now: int)
    ensures var r := CountOutcomes(Outcomes(ps, now));
      r.Returns? ==> forall x :: x in r.value ==> BandedAssessment(x)
  {
    var os := Outcomes(ps, now);
    if CountOutcomes(os).Returns? {
      var xs := CountOutcomes(os).value;
      CountValues(os);
      forall x | x in xs ensures BandedAssessment(x) {
        var i :| 0 <= i < |xs| && xs[i] == x;
        AssessBanded(ps[i], now);
      }
    }
  }

  /** An assessment that is returned carries the health and variance of the schedule bands. */
  lemma AssessBanded(p: Project, now: int)
    ensures Assess(p, now).Returns? ==> BandedAssessment(Assess(p, now).value)
  {
    ScheduleBands(p, now);
  }

  lemma SumHealthColors(m: map<Color, nat>)
    requires forall c :: c in HealthColors ==> c in m
    ensures SumValues(HealthColors, m) == m[Green] + m[Yellow] + m[Red]
  {
    assert HealthColors[..2] == [Green, Yellow];
    assert [Green, Yellow][..1] == [Green] && [Green][..0] == [];
    assert SumValues(HealthColors, m) == SumValues([Green, Yellow], m) + m[Red];
    assert SumValues([Green, Yellow], m) == SumValues([Green], m) + m[Yellow];
    assert SumValues([Green], m) == SumValues([], m) + m[Green];
  }

  /**
   * For banded assessments none of which is gray, every counter family adds
   * up to the number of assessments, and the overdue, at-risk and on-track
   * counts are the red, yellow and green health counts.
   */
  lemma {:induction false} MetricsOfConservation(xs: seq<Assessment>)
    requires AllCounted(xs) && forall x :: x in xs ==> BandedAssessment(x)
    ensures var r := MetricsOf(xs);
      SumValues(AllPhases, r.phases) == r.total
      && SumValues(AllRiskLevels, r.risks) == r.total
      && SumValues(HealthColors, r.health) == r.total
      && r.overdue == r.health[Red] && r.atRisk == r.health[Yellow] && r.onTrack == r.health[Green]
  {
    FamilyTotals(xs);
    LatenessIsHealth(xs);
  }

  /** Each counter family adds up to the number of assessments. */
  lemma {:induction false} FamilyTotals(xs: seq<Assessment>)
    requires AllCounted(xs)
    ensures SumValues(AllPhases, Counter(AllPhases, PhasesOf(xs))) == |xs|
    ensures SumValues(AllRiskLevels, Counter(AllRiskLevels, LevelsOf(xs))) == |xs|
    ensures SumValues(HealthColors, Counter(HealthColors, HealthsOf(xs))) == |xs|
  {
    var hs := HealthsOf(xs);
    assert NoDuplicates(AllPhases);
    assert NoDuplicates(AllRiskLevels);
    assert NoDuplicates(HealthColors);
    forall ph | ph in PhasesOf(xs) ensures ph in AllPhases {
      PhaseListed(ph);
    }
    CounterTotal(AllPhases, PhasesOf(xs));
    forall l | l in LevelsOf(xs) ensures l in AllRiskLevels {
      LevelListed(l);
    }
    CounterTotal(AllRiskLevels, LevelsOf(xs));
    forall c | c in hs ensures c in HealthColors {
      var i :| 0 <= i < |hs| && hs[i] == c;
      ProjectionsAt(xs, i);
    }
    CounterTotal(HealthColors, hs);
  }

  /** Late, due-soon and later are the red, yellow and green healths of banded assessments. */
  lemma {:induction false} LatenessIsHealth(xs: seq<Assessment>)
    requires AllCounted(xs) && forall x :: x in xs ==> BandedAssessment(x)
    ensures var hs, ls := HealthsOf(xs), LatenessesOf(xs);
      Count(ls, Late) == Counter(HealthColors, hs)[Red]
      && Count(ls, DueSoon) == Counter(HealthColors, hs)[Yellow]
      && |xs| - Count(ls, Late) - Count(ls, DueSoon) == Counter(HealthColors, hs)[Green]
  {
    var hs, ls := HealthsOf(xs), LatenessesOf(xs);
    forall i | 0 <= i < |xs|
      ensures (ls[i] == Late <==> hs[i] == Red) && (ls[i] == DueSoon <==> hs[i] == Yellow)
    {
      ProjectionsAt(xs, i);
      assert xs[i] in xs;
    }
    CountsCorrespond(ls, Late, hs, Red);
    CountsCorrespond(ls, DueSoon, hs, Yellow);
    FamilyTotals(xs);
    SumHealthColors(Counter(HealthColors, hs));
  }

  /**
   * Every counter family adds up to the number of projects, and the overdue,
   * at-risk and on-track counts are the red, yellow and green health counts;
   * only an empty portfolio gives `{}`.
   */
  lemma MetricsConservation(ps: seq<Project>, now: int)
    ensures PortfolioMetrics(ps, now) == NoProjects <==> ps == []
    ensures var r := PortfolioMetrics(ps, now);
      r.Metrics? ==>
        r.total == |ps|
        && SumValues(AllPhases, r.phases) == r.total
        && SumValues(AllRiskLevels, r.risks) == r.total
        && SumValues(HealthColors, r.health) == r.total
        && r.overdue == r.health[Red] && r.atRisk == r.health[Yellow] && r.onTrack == r.health[Green]
        && r.overdue + r.atRisk + r.onTrack == r.total && r.onTrack >= 0
  {
    if ps != [] && CountOutcomes(Outcomes(ps, now)).Returns? {
      AssessmentsBanded(ps, now);
      MetricsOfConservation(CountOutcomes(Outcomes(ps, now)).value);
    }
  }

  // ---------------------------------------------------- status categories

  /** One entry of `get_status_category_summary`. */
  datatype CategoryEntry = CategoryEntry(category: Category, count: nat, projects: seq<Project>)

  function SummaryTotal(entries: seq<CategoryEntry>): nat {
    if entries == [] then 0 else SummaryTotal(entries[..|entries| - 1]) + entries[|entries| - 1].count
  }

  /** The colour class of a category colour. */
  function ColorClass(c: Color): string {
    "bg-" + ColorName(c) + "-500"
  }

  /** A record holding only `Project_Status`, as `get_status_color` builds it. */
  function StatusOnly(status: string): Project {
    Project(None, None, None, Some(status), None, None, None, None, None, None, None, None, None, NoTeam,
            None, None, None, None)
  }

  // ------------------------------------------------------------ the viewer

  class ProjectViewer {
    var projects: seq<Project>
    var overrides: map<string, Override>

    /** The viewer over the loaded project list and override dictionary. */
    constructor (loaded: seq<Project>, stored: map<string, Override>)
      ensures projects == loaded && overrides == stored
    {
      projects := loaded;
      overrides := stored;
    }

    /** `refresh_data`: reload both lists and report the number of projects. */
    method RefreshData(loaded: seq<Project>, stored: map<string, Override>) returns (count: nat)
      modifies this
      ensures projects == loaded && overrides == stored && count == |loaded|
    {
      projects := loaded;
      overrides := stored;
      count := |projects|;
    }

    /**
     * `update_project_status`: write the override of `projectId`; the result
     * is the outcome of saving the dictionary.
     */
    method UpdateProjectStatus(projectId: string, newStatus: string, updatedBy: string, updatedAt: string,
                               saved: bool) returns (ok: bool)
      modifies this
      ensures overrides == RecordOverride(old(overrides), projects, projectId, newStatus, updatedBy, updatedAt)
      ensures projects == old(projects) && ok == saved
    {
      overrides := overrides[projectId := Override(newStatus, updatedBy, updatedAt, OriginalStatus(projects, projectId))];
      ok := saved;
    }

    /** The save button: an override is written only when the chosen status differs. */
    method SaveStatus(projectId: string, newStatus: string, currentStatus: string, updatedAt: string,
                      saved: bool) returns (written: bool)
      modifies this
      ensures written <==> newStatus != currentStatus
      ensures written ==> overrides == RecordOverride(old(overrides), projects, projectId, newStatus, "User", updatedAt)
      ensures !written ==> overrides == old(overrides)
      ensures projects == old(projects)
    {
      written := false;
      if newStatus != currentStatus {
        var ok := UpdateProjectStatus(projectId, newStatus, "User", updatedAt, saved);
        written := true;
      }
    }

    /** The reset button: drop the override of `projectId` if there is one. */
    method ResetStatus(projectId: string) returns (removed: bool)
      modifies this
      ensures removed == (projectId in old(overrides))
      ensures overrides == ClearOverride(old(overrides), projectId)
      ensures projects == old(projects)
    {
      removed := projectId in overrides;
      if removed {
        overrides := overrides - {projectId};
      }
    }

    /** `get_project_by_id`: the first project whose raw `Project_ID` equals `projectId`. */
    method GetProjectById(projectId: Value) returns (found: Option<Project>)
      ensures found.None? <==> forall i :: 0 <= i < |projects| ==> Get(projects[i].id, Null) != projectId
      ensures found.Some? ==>
        exists i :: 0 <= i < |projects| && projects[i] == found.value && Get(projects[i].id, Null) == projectId
          && forall j :: 0 <= j < i ==> Get(projects[j].id, Null) != projectId
    {
      var i := 0;
      while i < |projects|
        invariant 0 <= i <= |projects|
        invariant forall j :: 0 <= j < i ==> Get(projects[j].id, Null) != projectId
      {
        if Get(projects[i].id, Null) == projectId {
          return Some(projects[i]);
        }
        i := i + 1;
      }
      return None;
    }

    /** `get_project_status_category`. */
    function StatusCategory(p: Project): Category
      reads this
    {
      CategoryOfStatus(EffectiveStatus(overrides, p))
    }

    /** The category of each project, in order. */
    function CategoriesOf(ps: seq<Project>): (r: seq<Category>)
      reads this
      ensures |r| == |ps|
    {
      if ps == [] then [] else CategoriesOf(ps[..|ps| - 1]) + [StatusCategory(ps[|ps| - 1])]
    }

    /** The projects of `ps` whose category is `c`, in order. */
    function InCategory(ps: seq<Project>, c: Category): seq<Project>
      reads this
    {
      if ps == [] then []
      else InCategory(ps[..|ps| - 1], c) + (if StatusCategory(ps[|ps| - 1]) == c then [ps[|ps| - 1]] else [])
    }

    /** `get_projects_by_status_category`. */
    function ProjectsByStatusCategory(c: Category): seq<Project>
      reads this
    {
      InCategory(projects, c)
    }

    /** `get_status_category_summary`, one entry per category in declaration order. */
    function StatusCategorySummary(): seq<CategoryEntry>
      reads this
    {
      seq(|Categories|, k requires 0 <= k < |Categories| reads this =>
        CategoryEntry(Categories[k], |ProjectsByStatusCategory(Categories[k])|, ProjectsByStatusCategory(Categories[k])))
    }

    /** `get_status_color`: the colour class of the category a bare status falls in. */
    function StatusColor(status: string): string
      reads this
    {
      ColorClass(CategoryColor(StatusCategory(StatusOnly(status))))
    }

    /**
     * `get_project_metrics`: `{}` without projects, otherwise the exception
     * of the first project that cannot be counted, or the counters over the
     * projects' assessments.
     */
    method ProjectMetrics(now: int) returns (r: Metrics)
      ensures r == PortfolioMetrics(projects, now)
    {
      if |projects| == 0 {
        return NoProjects;
      }
      r := CountProjects(projects, now);
    }
  }

  /**
   * The counting loop of `get_project_metrics`: for each project in order
   * its phase, risk level and schedule performance, any of which may raise,
   * then its counters, where a gray health has no key and raises `KeyError`.
   */
  method CountProjects(ps: seq<Project>, now: int) returns (r: Metrics)
    ensures r == match CountOutcomes(Outcomes(ps, now))
                 case Raises(e) => MetricsError(e)
                 case Returns(xs) => MetricsOf(xs)
  {
    ghost var os := Outcomes(ps, now);
    var c := NoneCounted;
    var i := 0;
    while i < |ps|
      invariant 0 <= i <= |ps|
      invariant CountOutcomes(os[..i]).Returns? && c == CountersOf(CountOutcomes(os[..i]).value)
    {
      CountStep(os, i);
      var phase := ProjectPhase(ps[i], now);
      if phase.Raises? {
        CountPrefix(os, i + 1);
        return MetricsError(phase.error);
      }
      var risk := RiskLevelOf(ps[i], now);
      if risk.Raises? {
        CountPrefix(os, i + 1);
        return MetricsError(risk.error);
      }
      // the risk level has already run the schedule performance, so this call returns
      var perf := SchedulePerformance(ps[i], now);
      var x := Assessment(phase.value, risk.value.level, perf.value.health, perf.value.varianceDays);
      if x.health !in c.health {
        CountPrefix(os, i + 1);
        return MetricsError(KeyError);
      }
      c := Bumped(c, x);
      i := i + 1;
    }
    assert os[..i] == os;
    CountersMetrics(CountOutcomes(os).value);
    r := Metrics(|ps|, c.phases, c.risks, c.health, c.overdue, c.atRisk, |ps| - c.overdue - c.atRisk);
  }

  /**
   * One more project: the count of the longer prefix follows from its
   * outcome, the health counter has exactly the three keys, and counting
   * one more assessment bumps the counters.
   */
  lemma {:induction false} CountStep(os: seq<Outcome<Assessment>>, i: int)
    requires 0 <= i < |os| && CountOutcomes(os[..i]).Returns?
    ensures var xs := CountOutcomes(os[..i]).value;
      CountOutcomes(os[..i + 1]) ==
        match os[i]
        case Raises(e) => Raises(e)
        case Returns(x) => if x.health in HealthColors then Returns(xs + [x]) else Raises(KeyError)
    ensures var xs := CountOutcomes(os[..i]).value;
      (forall h :: h in CountersOf(xs).health <==> h in HealthColors)
      && forall x :: CountersOf(xs + [x]) == Bumped(CountersOf(xs), x)
  {
    var xs := CountOutcomes(os[..i]).value;
    var next := os[..i + 1];
    assert next[..i] == os[..i] && next[i] == os[i];
    HealthKeys(xs);
    forall x ensures CountersOf(xs + [x]) == Bumped(CountersOf(xs), x) {
      assert (xs + [x])[..|xs|] == xs;
    }
  }

  /** The five counters of the loop. */
  datatype Counters = Counters(phases: map<Phase, nat>, risks: map<RiskLevel, nat>, health: map<Color, nat>,
                               overdue: nat, atRisk: nat)

  /** The counters before the first project: every key at zero. */
  const NoneCounted: Counters :=
    Counters(map ph | ph in AllPhases :: 0, map l | l in AllRiskLevels :: 0, map h | h in HealthColors :: 0, 0, 0)

  /** The counters with one more assessment counted, as the loop body bumps them. */
  function Bumped(c: Counters, x: Assessment): Counters {
    Counters(Bump(c.phases, x.phase), Bump(c.risks, x.level), Bump(c.health, x.health),
             if x.varianceDays < 0 then c.overdue + 1 else c.overdue,
             if 0 <= x.varianceDays <= 7 then c.atRisk + 1 else c.atRisk)
  }

  /** The counters after counting the assessments `xs` one by one. */
  function CountersOf(xs: seq<Assessment>): Counters {
    if xs == [] then NoneCounted else Bumped(CountersOf(xs[..|xs| - 1]), xs[|xs| - 1])
  }

  /**
   * Counting one by one, when no health is gray, gives the occurrence counts
   * of every key and the numbers of late and due-soon assessments.
   */
  lemma CountersOfCounts(xs: seq<Assessment>)
    requires AllCounted(xs)
    ensures CountersOf(xs) == Counters(Counter(AllPhases, PhasesOf(xs)), Counter(AllRiskLevels, LevelsOf(xs)),
                                       Counter(HealthColors, HealthsOf(xs)),
                                       Count(LatenessesOf(xs), Late), Count(LatenessesOf(xs), DueSoon))
  {
    PhaseCounts(xs);
    LevelCounts(xs);
    HealthCounts(xs);
    LatenessCounts(xs);
  }

  lemma {:induction false} PhaseCounts(xs: seq<Assessment>)
    ensures CountersOf(xs).phases == Counter(AllPhases, PhasesOf(xs))
  {
    if xs != [] {
      var ys, x := xs[..|xs| - 1], xs[|xs| - 1];
      PhaseCounts(ys);
      PhaseListed(x.phase);
      assert CountersOf(xs) == Bumped(CountersOf(ys), x);
      assert PhasesOf(xs) == PhasesOf(ys) + [x.phase];
      BumpCounter(AllPhases, PhasesOf(ys), x.phase);
    }
  }

  lemma {:induction false} LevelCounts(xs: seq<Assessment>)
    ensures CountersOf(xs).risks == Counter(AllRiskLevels, LevelsOf(xs))
  {
    if xs != [] {
      var ys, x := xs[..|xs| - 1], xs[|xs| - 1];
      LevelCounts(ys);
      LevelListed(x.level);
      assert CountersOf(xs) == Bumped(CountersOf(ys), x);
      assert LevelsOf(xs) == LevelsOf(ys) + [x.level];
      BumpCounter(AllRiskLevels, LevelsOf(ys), x.level);
    }
  }

  lemma {:induction false} HealthCounts(xs: seq<Assessment>)
    requires AllCounted(xs)
    ensures CountersOf(xs).health == Counter(HealthColors, HealthsOf(xs))
  {
    if xs != [] {
      var ys, x := xs[..|xs| - 1], xs[|xs| - 1];
      assert AllCounted(ys) by {
        forall j | 0 <= j < |ys| ensures ys[j].health in HealthColors {
          assert ys[j] == xs[j];
        }
      }
      HealthCounts(ys);
      assert x.health in HealthColors;
      assert CountersOf(xs) == Bumped(CountersOf(ys), x);
      assert HealthsOf(xs) == HealthsOf(ys) + [x.health];
      BumpCounter(HealthColors, HealthsOf(ys), x.health);
    }
  }

  lemma {:induction false} LatenessCounts(xs: seq<Assessment>)
    ensures CountersOf(xs).overdue == Count(LatenessesOf(xs), Late)
    ensures CountersOf(xs).atRisk == Count(LatenessesOf(xs), DueSoon)
  {
    if xs != [] {
      var ys, x := xs[..|xs| - 1], xs[|xs| - 1];
      LatenessCounts(ys);
      CountSnoc(LatenessesOf(ys), LatenessOf(x.varianceDays), Late);
      CountSnoc(LatenessesOf(ys), LatenessOf(x.varianceDays), DueSoon);
    }
  }

  /** The metrics are the loop's counters, with the on-track count left over. */
  lemma {:induction false} CountersMetrics(xs: seq<Assessment>)
    requires AllCounted(xs)
    ensures var c := CountersOf(xs);
      MetricsOf(xs) == Metrics(|xs|, c.phases, c.risks, c.health, c.overdue, c.atRisk, |xs| - c.overdue - c.atRisk)
  {
    CountersOfCounts(xs);
  }

  /** While no health is gray, the health counter has exactly the keys green, yellow and red. */
  lemma HealthKeys(xs: seq<Assessment>)
    requires AllCounted(xs)
    ensures forall h :: h in CountersOf(xs).health <==> h in HealthColors
  {
    CountersOfCounts(xs);
  }

  // ------------------------------------------------ lemmas about a viewer

  lemma {:induction false} InCategorySize(v: ProjectViewer, ps: seq<Project>, c: Category)
    ensures |v.InCategory(ps, c)| == Count(v.CategoriesOf(ps), c)
  {
    if ps != [] {
      InCategorySize(v, ps[..|ps| - 1], c);
    }
  }

  lemma {:induction false} InCategoryMembers(v: ProjectViewer, ps: seq<Project>, c: Category)
    ensures forall p :: p in v.InCategory(ps, c) <==> p in ps && v.StatusCategory(p) == c
  {
    if ps != [] {
      InCategoryMembers(v, ps[..|ps| - 1], c);
      assert ps == ps[..|ps| - 1] + [ps[|ps| - 1]];
    }
  }

  lemma {:induction false} SummaryTotalCounts(entries: seq<CategoryEntry>, counts: seq<Category>)
    requires |entries| <= |Categories|
    requires forall k :: 0 <= k < |entries| ==>
      entries[k].category == Categories[k] && entries[k].count == Count(counts, Categories[k])
    ensures SummaryTotal(entries) == SumCounts(Categories[..|entries|], counts)
  {
    if entries != [] {
      var n := |entries|;
      SummaryTotalCounts(entries[..n - 1], counts);
      assert Categories[..n][..n - 1] == Categories[..n - 1];
    }
  }

  /** The categories are listed once each, and every category is listed. */
  lemma CategoriesListed()
    ensures NoDuplicates(Categories)
    ensures forall c: Category :: c in Categories
  {
    forall i, j | 0 <= i < j < |Categories| ensures Categories[i] != Categories[j] {
    }
    forall c: Category ensures c in Categories {
      match c
      case NotStarted => case InProgress => case AwaitingClient => case AwaitingResources =>
      case OnHold => case QualityReview => case Completed => case Cancelled =>
    }
  }

  /**
   * The summary lists every category once, each with exactly the projects
   * of that category, and its counts add up to the number of projects.
   */
  lemma StatusSummaryCovers(v: ProjectViewer)
    ensures var s := v.StatusCategorySummary();
      |s| == |Categories|
      && (forall k :: 0 <= k < |s| ==>
            s[k].category == Categories[k] && s[k].count == |s[k].projects|
            && forall p :: p in s[k].projects <==> p in v.projects && v.StatusCategory(p) == Categories[k])
      && SummaryTotal(s) == |v.projects|
  {
    StatusSummaryEntries(v);
    StatusSummaryTotal(v);
  }

  lemma StatusSummaryEntries(v: ProjectViewer)
    ensures var s := v.StatusCategorySummary();
      |s| == |Categories|
      && forall k :: 0 <= k < |s| ==>
           s[k].category == Categories[k] && s[k].count == |s[k].projects|
           && forall p :: p in s[k].projects <==> p in v.projects && v.StatusCategory(p) == Categories[k]
  {
    var s := v.StatusCategorySummary();
    forall k | 0 <= k < |s|
      ensures s[k].category == Categories[k] && s[k].count == |s[k].projects|
      ensures forall p :: p in s[k].projects <==> p in v.projects && v.StatusCategory(p) == Categories[k]
    {
      var c := Categories[k];
      assert s[k] == CategoryEntry(c, |v.ProjectsByStatusCategory(c)|, v.ProjectsByStatusCategory(c));
      InCategoryMembers(v, v.projects, c);
    }
  }

  lemma StatusSummaryTotal(v: ProjectViewer)
    ensures SummaryTotal(v.StatusCategorySummary()) == |v.projects|
  {
    var s := v.StatusCategorySummary();
    var cs := v.CategoriesOf(v.projects);
    forall k | 0 <= k < |s|
      ensures s[k].category == Categories[k] && s[k].count == Count(cs, Categories[k])
    {
      InCategorySize(v, v.projects, Categories[k]);
    }
    SummaryTotalCounts(s, cs);
    assert Categories[..|s|] == Categories;
    CategoriesListed();
    SumCountsCover(Categories, cs);
  }

  /**
   * A bare status takes the colour of its category, unless an override is
   * stored under the empty key, which the bare record's missing id maps to.
   */
  lemma StatusColorOfCategory(v: ProjectViewer, status: string)
    ensures "" !in v.overrides ==> v.StatusColor(status) == ColorClass(CategoryColor(CategoryOfStatus(status)))
    ensures "" in v.overrides ==>
      v.StatusColor(status) == ColorClass(CategoryColor(CategoryOfStatus(v.overrides[""].status)))
  {
    assert IdKey(StatusOnly(status)) == "";
  }
}
