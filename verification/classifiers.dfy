/**
 * The per-project classifiers of the project viewer: due-date banding,
 * ordering by due date, the PMBOK process group, schedule performance,
 * the additive risk score, and the two-stage status categorisation.
 */
module Classifiers {
  import opened PyValues
  import opened Records
  import opened Dates
  import opened Collections

  /** The colour names the viewer hands to its pages. */
  datatype Color = Gray | Blue | Yellow | Orange | Red | Purple | Green

  function ColorName(c: Color): string {
    match c
    case Gray => "gray"
    case Blue => "blue"
    case Yellow => "yellow"
    case Orange => "orange"
    case Red => "red"
    case Purple => "purple"
    case Green => "green"
  }

  // ------------------------------------------------------------- due dates

  /** `get_due_date_status`: a label and a colour for a day count. */
  function DueDateStatus(days: Option<int>): (string, Color) {
    match days
    case None => ("No due date", Gray)
    case Some(n) =>
      if n < 0 then (NatToDecimal(-n) + " days overdue", Red)
      else if n == 0 then ("Due today", Red)
      else if n <= 7 then (NatToDecimal(n) + " days left", Yellow)
      else if n <= 30 then (NatToDecimal(n) + " days left", Blue)
      else (NatToDecimal(n) + " days left", Green)
  }

  /** The colour bands: red up to today, then yellow to a week, blue to thirty days, green beyond. */
  lemma DueColorBands(n: int)
    ensures DueDateStatus(Some(n)).1 == Red <==> n <= 0
    ensures DueDateStatus(Some(n)).1 == Yellow <==> 1 <= n <= 7
    ensures DueDateStatus(Some(n)).1 == Blue <==> 8 <= n <= 30
    ensures DueDateStatus(Some(n)).1 == Green <==> n > 30
    ensures DueDateStatus(Some(0)) == ("Due today", Red)
    ensures DueDateStatus(None) == ("No due date", Gray)
  {
  }

  /** Every label other than 'Due today' opens with the day count, which reads back as |n|. */
  lemma {:induction false} DueLabelCount(n: int)
    requires n != 0
    ensures var text := DueDateStatus(Some(n)).0;
      var digits := if n < 0 then NatToDecimal(-n) else NatToDecimal(n);
      text == digits + (if n < 0 then " days overdue" else " days left")
      && ParseNat(digits) == (if n < 0 then -n else n)
  {
    if n < 0 {
      ParseNatToDecimal(-n);
    } else {
      ParseNatToDecimal(n);
    }
  }

  /** The sort key of `sort_projects_by_due_date`: the day count, or infinity. */
  function DueRank(now: int): Project -> Rank {
    p => match DaysUntilDue(p, now) case None => Infinite case Some(d) => Finite(d)
  }

  /** `sort_projects_by_due_date`: Python's stable `sorted` by that key. */
  function SortByDueDate(projects: seq<Project>, now: int): seq<Project> {
    SortBy(projects, DueRank(now))
  }

  /**
   * The sorted list is a permutation of the input ordered by due date, the
   * undated ones last, and projects with equal keys keep their input order.
   */
  lemma SortByDueDateSpec(projects: seq<Project>, now: int)
    ensures var r := SortByDueDate(projects, now);
      SortedBy(r, DueRank(now)) && multiset(r) == multiset(projects)
      && forall k :: WithKey(r, DueRank(now), k) == WithKey(projects, DueRank(now), k)
  {
    SortBySorted(projects, DueRank(now));
    forall k ensures WithKey(SortByDueDate(projects, now), DueRank(now), k) == WithKey(projects, DueRank(now), k) {
      SortByStable(projects, DueRank(now), k);
    }
  }

  // --------------------------------------------------------------- phases

  datatype Phase = Initiating | Planning | Executing | Monitoring | Closing

  function StatusText(p: Project): string {
    Lower(Get(p.status, ""))
  }

  /** A date field holding epoch milliseconds that `datetime` can represent. */
  predicate Timestamped(v: Value) {
    v.Int? && InDatetimeRange(v.i)
  }

  /**
   * `get_project_phase`; converting the request date of an assigned
   * project raises when it is not a number or out of range, and no other
   * project can raise.
   */
  function ProjectPhase(p: Project, now: int): (r: Outcome<Phase>)
    ensures r.Raises? ==> StatusText(p) == "assigned"
  {
    var status := StatusText(p);
    var requested := Get(p.dateRequested, Int(0));
    if status == "assigned" then
      if Truthy(requested) then
        match FromTimestamp(requested)
        case Raises(e) => Raises(e)
        case Returns(ms) => Returns(if FloorDays(now - ms) <= 14 then Initiating else Executing)
      else Returns(Planning)
    else if status == "in progress" then Returns(Executing)
    else if status == "completed" then Returns(Closing)
    else if status == "on hold" then Returns(Monitoring)
    else Returns(Initiating)
  }

  /**
   * An assigned project is planning exactly when it has no request date.
   * A request date that is not a number raises `TypeError`, a number out of
   * range `ValueError`; otherwise the project is initiating exactly while
   * fewer than fifteen whole days have passed since it was requested, and
   * executing after that.
   */
  lemma AssignedPhase(p: Project, now: int)
    requires StatusText(p) == "assigned"
    ensures var requested := Get(p.dateRequested, Int(0));
      var r := ProjectPhase(p, now);
      (!Truthy(requested) <==> r == Returns(Planning))
      && (Truthy(requested) && !requested.Int? <==> r == Raises(TypeError))
      && (Truthy(requested) && requested.Int? && !InDatetimeRange(requested.i) <==> r == Raises(ValueError))
      && (Truthy(requested) && Timestamped(requested) ==>
            (r == Returns(Initiating) <==> now - requested.i < 15 * MsPerDay)
            && (r == Returns(Executing) <==> now - requested.i >= 15 * MsPerDay))
  {
  }

  // ------------------------------------------------------ schedule health

  datatype ScheduleStatus = Unknown | Overdue | AtRisk | BehindSchedule | OnTrack

  /** The schedule performance index as an exact ratio `num / den`, or 'N/A'. */
  datatype Spi = NotAvailable | Ratio(num: int, den: int)

  datatype Durations = Durations(total: int, elapsed: int, remaining: int)

  datatype SchedulePerf = SchedulePerf(status: ScheduleStatus, varianceDays: int, health: Color,
                                       spi: Spi, durations: Option<Durations>)

  /** `spi < 0.9` for a ratio with a positive denominator. */
  predicate SpiBelowThreshold(spi: Spi) {
    spi.Ratio? && 10 * spi.num < 9 * spi.den
  }

  /**
   * `calculate_schedule_performance`; with both dates set, converting the
   * request date and then the required date raises when one is not a
   * number or out of range.
   */
  function SchedulePerformance(p: Project, now: int): (r: Outcome<SchedulePerf>)
    ensures r.Returns? && r.value.spi.Ratio? ==> r.value.spi.den > 0
  {
    var requested := Get(p.dateRequested, Int(0));
    var required := Get(p.dateRequired, Int(0));
    if !Truthy(requested) || !Truthy(required) then
      Returns(SchedulePerf(Unknown, 0, Gray, NotAvailable, None))
    else
      match FromTimestamp(requested)
      case Raises(e) => Raises(e)
      case Returns(start) =>
        match FromTimestamp(required)
        case Raises(e) => Raises(e)
        case Returns(end) =>
          var total := FloorDays(end - start);
          var elapsed := FloorDays(now - start);
          var remaining := FloorDays(end - now);
          // planned = elapsed / total; spi = min(planned, 1) / planned
          var spi := if total > 0 && elapsed > total then Ratio(total, elapsed) else Ratio(1, 1);
          var (status, health) :=
            if remaining < 0 then (Overdue, Red)
            else if remaining <= 7 then (AtRisk, Yellow)
            else if SpiBelowThreshold(spi) then (BehindSchedule, Yellow)
            else (OnTrack, Green);
          Returns(SchedulePerf(status, remaining, health, spi, Some(Durations(total, elapsed, remaining))))
  }

  /** More whole days means a longer span. */
  lemma FloorDaysOrder(a: int, b: int)
    ensures FloorDays(a) > FloorDays(b) ==> a > b
  {
    assert FloorDays(a) > FloorDays(b) ==> FloorDays(a) * MsPerDay >= FloorDays(b) * MsPerDay + MsPerDay;
  }

  /**
   * More whole days elapsed than the plan has means the end date is past,
   * so the 'Behind Schedule' branch can never be taken.
   */
  lemma {:induction false} BehindScheduleUnreachable(p: Project, now: int)
    ensures SchedulePerformance(p, now).Returns? ==> SchedulePerformance(p, now).value.status != BehindSchedule
  {
    var requested := Get(p.dateRequested, Int(0));
    var required := Get(p.dateRequired, Int(0));
    if Truthy(requested) && Truthy(required) && Timestamped(requested) && Timestamped(required) {
      var total := FloorDays(required.i - requested.i);
      var elapsed := FloorDays(now - requested.i);
      if total > 0 && elapsed > total {
        FloorDaysOrder(now - requested.i, required.i - requested.i);
        assert FloorDays(required.i - now) < 0;
      }
    }
  }

  /**
   * Without both dates the result is 'Unknown'.  With both, a request date
   * that does not convert raises, then a required date that does not; a
   * non-number raises `TypeError` and a number out of range `ValueError`.
   * With both converted, the health is red exactly when the end date is
   * past, yellow exactly in the last week, and green otherwise, and the
   * variance is the remaining day count.
   */
  lemma {:induction false} ScheduleBands(p: Project, now: int)
    ensures var r := SchedulePerformance(p, now);
      var requested := Get(p.dateRequested, Int(0));
      var required := Get(p.dateRequired, Int(0));
      if !Truthy(requested) || !Truthy(required) then
        r == Returns(SchedulePerf(Unknown, 0, Gray, NotAvailable, None))
      else if !Timestamped(requested) then
        r == Raises(if requested.Int? then ValueError else TypeError)
      else if !Timestamped(required) then
        r == Raises(if required.Int? then ValueError else TypeError)
      else
        var remaining := FloorDays(required.i - now);
        r.Returns? && r.value.varianceDays == remaining
        && (r.value.health == Red <==> remaining < 0) && (r.value.health == Red <==> r.value.status == Overdue)
        && (r.value.health == Yellow <==> 0 <= remaining <= 7)
        && (r.value.health == Yellow <==> r.value.status == AtRisk)
        && (r.value.health == Green <==> remaining > 7) && (r.value.health == Green <==> r.value.status == OnTrack)
  {
    BehindScheduleUnreachable(p, now);
  }

  // ----------------------------------------------------------------- risk

  datatype RiskLevel = Low | Medium | High

  datatype Risk = Risk(level: RiskLevel, color: Color, score: int)

  /**
   * `len(project.get('Team_Members', []))`: items of a list, characters of
   * a text, and `TypeError` for a value without a length.
   */
  function TeamLength(t: TeamField): (r: Outcome<nat>)
    ensures r.Raises? <==> t.TeamOther?
    ensures r.Raises? ==> r.error == TypeError
    ensures t.NoTeam? ==> r == Returns(0)
  {
    match t
    case NoTeam => Returns(0)
    case TeamList(items) => Returns(|items|)
    case TeamText(text) => Returns(|text|)
    case TeamOther => Raises(TypeError)
  }

  function PriorityText(p: Project): string {
    Lower(Get(p.priority, "Normal"))
  }

  /**
   * The risk factors `get_risk_level` accumulates once it has the schedule
   * health; taking the team size raises when the team value has no length.
   */
  function RiskScore(p: Project, health: Color): (r: Outcome<int>)
    ensures r.Raises? <==> p.teamMembers.TeamOther?
    ensures r.Raises? ==> r.error == TypeError
    ensures r.Returns? ==> 0 <= r.value <= 6
  {
    var priority := PriorityText(p);
    var s0 := 0;
    var s1 := if health == Red then s0 + 3 else if health == Yellow then s0 + 2 else s0;
    var s2 := if priority == "urgent" then s1 + 2 else if priority == "high" then s1 + 1 else s1;
    match TeamLength(p.teamMembers)
    case Raises(e) => Raises(e)
    case Returns(n) =>
      var teamSize := n + 1;  // the coordinator counts too
      Returns(if teamSize == 1 then s2 + 1 else if teamSize > 4 then s2 + 1 else s2)
  }

  /**
   * `get_risk_level`: the schedule performance first, which may raise, then
   * the score, which raises for a team value without a length, then the band.
   */
  function RiskLevelOf(p: Project, now: int): (r: Outcome<Risk>)
    ensures r.Raises? <==> SchedulePerformance(p, now).Raises? || p.teamMembers.TeamOther?
    ensures r.Raises? ==>
      r.error == if SchedulePerformance(p, now).Raises? then SchedulePerformance(p, now).error else TypeError
  {
    match SchedulePerformance(p, now)
    case Raises(e) => Raises(e)
    case Returns(perf) =>
      match RiskScore(p, perf.health)
      case Raises(e) => Raises(e)
      case Returns(score) =>
        if score >= 5 then Returns(Risk(High, Red, score))
        else if score >= 3 then Returns(Risk(Medium, Yellow, score))
        else Returns(Risk(Low, Green, score))
  }

  /** The level is a banding of the score, and its colour follows the level. */
  lemma RiskBands(p: Project, now: int)
    ensures var r := RiskLevelOf(p, now);
      r.Returns? ==>
        r.value.score == RiskScore(p, SchedulePerformance(p, now).value.health).value
        && (r.value.level == High <==> r.value.score >= 5) && (r.value.level == High <==> r.value.color == Red)
        && (r.value.level == Medium <==> 3 <= r.value.score <= 4)
        && (r.value.level == Medium <==> r.value.color == Yellow)
        && (r.value.level == Low <==> r.value.score <= 2) && (r.value.level == Low <==> r.value.color == Green)
  {
  }

  /**
   * Priority and team together add at most three points, so a project is
   * high risk only when its schedule is red or yellow and its priority is
   * urgent or high; an overdue urgent project is always high risk, unless
   * its team value has no length and the team size raises.
   */
  lemma {:induction false} HighRiskNeeds(p: Project, now: int)
    ensures RiskLevelOf(p, now).Returns? && RiskLevelOf(p, now).value.level == High ==>
      SchedulePerformance(p, now).value.health in {Red, Yellow}
      && PriorityText(p) in {"urgent", "high"}
    ensures (SchedulePerformance(p, now).Returns? && SchedulePerformance(p, now).value.health == Red
             && PriorityText(p) == "urgent") ==>
      if p.teamMembers.TeamOther? then RiskLevelOf(p, now) == Raises(TypeError)
      else RiskLevelOf(p, now).Returns? && RiskLevelOf(p, now).value.level == High
  {
    if SchedulePerformance(p, now).Returns? {
      var health := SchedulePerformance(p, now).value.health;
      var score := RiskScore(p, health);
      assert score.Returns? && score.value >= 5 ==> health in {Red, Yellow};
    }
  }

  /**
   * A project without both dates and with normal priority is low risk and
   * scores at most 1; it raises only when its team value has no length.
   */
  lemma {:induction false} UndatedNormalIsLow(p: Project, now: int)
    requires !Truthy(Get(p.dateRequested, Int(0))) || !Truthy(Get(p.dateRequired, Int(0)))
    requires PriorityText(p) != "urgent" && PriorityText(p) != "high"
    ensures RiskLevelOf(p, now) ==
      if p.teamMembers.TeamOther? then Raises(TypeError) else Returns(Risk(Low, Green, RiskScore(p, Gray).value))
    ensures RiskScore(p, Gray).Returns? ==> RiskScore(p, Gray).value <= 1
  {
    assert SchedulePerformance(p, now) == Returns(SchedulePerf(Unknown, 0, Gray, NotAvailable, None));
  }

  // ---------------------------------------------------- status categories

  /** The eight status categories, in the order the viewer declares them. */
  datatype Category =
    NotStarted | InProgress | AwaitingClient | AwaitingResources | OnHold | QualityReview | Completed | Cancelled

  const Categories: seq<Category> :=
    [NotStarted, InProgress, AwaitingClient, AwaitingResources, OnHold, QualityReview, Completed, Cancelled]

  function CategoryKey(c: Category): string {
    match c
    case NotStarted => "not_started"
    case InProgress => "in_progress"
    case AwaitingClient => "awaiting_client"
    case AwaitingResources => "awaiting_resources"
    case OnHold => "on_hold"
    case QualityReview => "quality_review"
    case Completed => "completed"
    case Cancelled => "cancelled"
  }

  function CategoryColor(c: Category): Color {
    match c
    case NotStarted => Gray
    case InProgress => Blue
    case AwaitingClient => Yellow
    case AwaitingResources => Orange
    case OnHold => Red
    case QualityReview => Purple
    case Completed => Green
    case Cancelled => Gray
  }

  /** The source statuses each category lists. */
  function Statuses(c: Category): seq<string> {
    match c
    case NotStarted => ["Assigned", "New", "Queued"]
    case InProgress => ["In Progress", "Active", "Working"]
    case AwaitingClient => ["Awaiting Client Feedback", "Client Review", "Pending Client"]
    case AwaitingResources => ["Awaiting Resources", "Resource Blocked", "Team Unavailable"]
    case OnHold => ["On Hold", "Paused", "Suspended"]
    case QualityReview => ["Quality Review", "QA Review", "Technical Review"]
    case Completed => ["Completed", "Done", "Finished", "Delivered"]
    case Cancelled => ["Cancelled", "Terminated", "Discontinued"]
  }

  /** The first category, in declaration order, listing the status verbatim. */
  function ListedCategory(status: string, cats: seq<Category>): Option<Category> {
    if cats == [] then None
    else if status in Statuses(cats[0]) then Some(cats[0])
    else ListedCategory(status, cats[1..])
  }

  predicate ContainsAny(s: string, words: seq<string>) {
    exists i :: 0 <= i < |words| && Contains(s, words[i])
  }

  /** The keyword fallback, tried in a fixed order on the lower-cased status. */
  function InferredCategory(lower: string): Category {
    if ContainsAny(lower, ["progress", "active", "working"]) then InProgress
    else if ContainsAny(lower, ["client", "feedback", "review"]) then AwaitingClient
    else if ContainsAny(lower, ["hold", "pause", "suspend"]) then OnHold
    else if ContainsAny(lower, ["complete", "done", "finish"]) then Completed
    else if ContainsAny(lower, ["cancel", "terminate"]) then Cancelled
    else NotStarted
  }

  /** `get_project_status_category` applied to an effective status. */
  function CategoryOfStatus(status: string): Category {
    var s := Strip(status);
    if s == [] then NotStarted
    else match ListedCategory(s, Categories)
      case Some(c) => c
      case None => InferredCategory(Lower(s))
  }

  /**
   * Length, first, third and last character: enough to tell every listed
   * status apart from the statuses of every other category.
   */
  function Signature(s: string): (int, char, char, char) {
    if |s| < 3 then (|s|, ' ', ' ', ' ') else (|s|, s[0], s[2], s[|s| - 1])
  }

  function Signatures(c: Category): seq<(int, char, char, char)> {
    match c
    case NotStarted => [(8, 'A', 's', 'd'), (3, 'N', 'w', 'w'), (6, 'Q', 'e', 'd')]
    case InProgress => [(11, 'I', ' ', 's'), (6, 'A', 't', 'e'), (7, 'W', 'r', 'g')]
    case AwaitingClient => [(24, 'A', 'a', 'k'), (13, 'C', 'i', 'w'), (14, 'P', 'n', 't')]
    case AwaitingResources => [(18, 'A', 'a', 's'), (16, 'R', 's', 'd'), (16, 'T', 'a', 'e')]
    case OnHold => [(7, 'O', ' ', 'd'), (6, 'P', 'u', 'd'), (9, 'S', 's', 'd')]
    case QualityReview => [(14, 'Q', 'a', 'w'), (9, 'Q', ' ', 'w'), (16, 'T', 'c', 'w')]
    case Completed => [(9, 'C', 'm', 'd'), (4, 'D', 'n', 'e'), (8, 'F', 'n', 'd'), (9, 'D', 'l', 'd')]
    case Cancelled => [(9, 'C', 'n', 'd'), (10, 'T', 'r', 'd'), (12, 'D', 's', 'd')]
  }

  lemma StatusSignature(c: Category, s: string)
    requires s in Statuses(c)
    ensures Signature(s) in Signatures(c)
  {
    var ss, gs := Statuses(c), Signatures(c);
    if c in {NotStarted, InProgress, AwaitingClient, AwaitingResources} {
      EarlySignatures(c);
    } else {
      LateSignatures(c);
    }
    var i :| 0 <= i < |ss| && ss[i] == s;
  }

  /** The signatures of the first four categories' statuses, element by element. */
  lemma EarlySignatures(c: Category)
    requires c in {NotStarted, InProgress, AwaitingClient, AwaitingResources}
    ensures |Statuses(c)| == |Signatures(c)|
    ensures forall i :: 0 <= i < |Statuses(c)| ==> Signature(Statuses(c)[i]) == Signatures(c)[i]
  {
  }

  /** The signatures of the last four categories' statuses, element by element. */
  lemma LateSignatures(c: Category)
    requires c in {OnHold, QualityReview, Completed, Cancelled}
    ensures |Statuses(c)| == |Signatures(c)|
    ensures forall i :: 0 <= i < |Statuses(c)| ==> Signature(Statuses(c)[i]) == Signatures(c)[i]
  {
  }

  /** The lists are pairwise disjoint, so a listed status belongs to exactly one category. */
  lemma ListsDisjoint(c: Category, d: Category, s: string)
    requires c != d && s in Statuses(c)
    ensures s !in Statuses(d)
  {
    StatusSignature(c, s);
    if s in Statuses(d) {
      StatusSignature(d, s);
      SignaturesDisjoint(c, d, Signature(s));
    }
  }

  lemma SignaturesDisjoint(c: Category, d: Category, g: (int, char, char, char))
    requires c != d && g in Signatures(c)
    ensures g !in Signatures(d)
  {
  }

  lemma {:induction false} ListedCategoryFinds(s: string, c: Category, cats: seq<Category>)
    requires s in Statuses(c) && c in cats
    ensures ListedCategory(s, cats) == Some(c)
  {
    if cats[0] != c {
      ListsDisjoint(c, cats[0], s);
      ListedCategoryFinds(s, c, cats[1..]);
    }
  }

  /** Each listed status falls in its own category. */
  lemma {:induction false} ListedStatusCategory(c: Category, s: string)
    requires s in Statuses(c)
    ensures CategoryOfStatus(s) == c
  {
    ListedHasNoEdgeBlanks(c, s);
    StripUnchanged(s);
    ListedCategoryFinds(s, c, Categories);
  }

  lemma ListedHasNoEdgeBlanks(c: Category, s: string)
    requires s in Statuses(c)
    ensures s != [] && !IsSpace(s[0]) && !IsSpace(s[|s| - 1])
  {
    StatusSignature(c, s);
    SignatureEdges(c, Signature(s));
  }

  lemma SignatureEdges(c: Category, g: (int, char, char, char))
    requires g in Signatures(c)
    ensures g.0 >= 3 && !IsSpace(g.1) && !IsSpace(g.3)
  {
  }

  lemma StripUnchanged(s: string)
    requires s != [] && !IsSpace(s[0]) && !IsSpace(s[|s| - 1])
    ensures Strip(s) == s
  {
  }

  /** A blank or all-whitespace status is 'not started'. */
  lemma BlankStatus(s: string)
    requires forall i :: 0 <= i < |s| ==> IsSpace(s[i])
    ensures CategoryOfStatus(s) == NotStarted
  {
    assert Strip(s) == [] by {
      BlankStrips(s);
    }
  }

  lemma {:induction false} BlankStrips(s: string)
    requires forall i :: 0 <= i < |s| ==> IsSpace(s[i])
    ensures StripLeft(s) == []
  {
    if s != [] {
      BlankStrips(s[1..]);
    }
  }

  /**
   * The keyword fallback never yields 'awaiting resources' or 'quality
   * review': those categories are reached only by a listed status.
   */
  lemma {:induction false} ListedOnly(s: string)
    ensures CategoryOfStatus(s) in {AwaitingResources, QualityReview} ==>
      ListedCategory(Strip(s), Categories) == Some(CategoryOfStatus(s))
  {
    var t := Strip(s);
    if t != [] && ListedCategory(t, Categories).None? {
      InferredNeverListedOnly(Lower(t));
    }
  }

  lemma InferredNeverListedOnly(lower: string)
    ensures InferredCategory(lower) != AwaitingResources && InferredCategory(lower) != QualityReview
  {
  }
}
