/**
 * Per-project views of the viewer that do not classify: the de-duplicated
 * team-member list, the stakeholder register, and the split of a note into
 * its front matter and body.
 */
module ProjectDetails {
  import opened PyValues
  import opened Records
  import opened Collections

  // ------------------------------------------------------------ team members

  /** `project.get('Project_Team_Lead', '') or project.get('Team_Member', '') or 'Cole Folkers'`. */
  function Lead(p: Project): Value {
    Or(Or(Get(p.teamLead, Str("")), Get(p.teamMember, Str(""))), Str("Cole Folkers"))
  }

  /** The lead entry: present when the lead is a string other than 'N/A'. */
  function LeadEntry(p: Project): seq<string> {
    match Lead(p)
    case Str(s) => if s != "" && s != "N/A" then [s + " (Lead)"] else []
    case _ => []
  }

  /** The stripped, non-blank string elements of a `Team_Members` list; records and other values are skipped. */
  function ListedNames(items: seq<Member>): seq<string> {
    if items == [] then []
    else
      ListedNames(items[..|items| - 1])
      + match items[|items| - 1]
        case MemberName(n) => if Strip(n) != "" then [Strip(n)] else []
        case MemberRecord(_) => []
        case MemberOther => []
  }

  /** `[m.strip() for m in text.split(',') if m.strip()]`. */
  function SplitNames(parts: seq<string>): seq<string> {
    if parts == [] then []
    else SplitNames(parts[..|parts| - 1]) + (if Strip(parts[|parts| - 1]) != "" then [Strip(parts[|parts| - 1])] else [])
  }

  /** The other members, from a list or from a comma-separated string; any other value gives none. */
  function OtherMembers(t: TeamField): seq<string> {
    match t
    case TeamList(items) => ListedNames(items)
    case TeamText(text) => if text != "" then SplitNames(Split(text, ',')) else []
    case NoTeam => []
    case TeamOther => []
  }

  /** The names `get_team_members_list` collects before removing repeats. */
  function TeamCandidates(p: Project): seq<string> {
    LeadEntry(p) + OtherMembers(p.teamMembers)
  }

  const DefaultTeam: seq<string> := ["Cole Folkers (Lead)"]

  /**
   * `get_team_members_list`: the candidates with repeats removed by a `seen`
   * set, in first-occurrence order, or the default lead when none remain.
   */
  method TeamMembersList(p: Project) returns (names: seq<string>)
    ensures names == if TeamCandidates(p) == [] then DefaultTeam else Distinct(TeamCandidates(p))
  {
    var unique := RemoveRepeats(TeamCandidates(p));
    if unique == [] {
      names := DefaultTeam;
    } else {
      names := unique;
    }
  }

  /** One more candidate: kept when it has not been seen. */
  lemma {:induction false} DistinctStep(candidates: seq<string>, i: int)
    requires 0 <= i < |candidates|
    ensures Distinct(candidates[..i + 1]) ==
      if candidates[i] in candidates[..i] then Distinct(candidates[..i]) else Distinct(candidates[..i]) + [candidates[i]]
    ensures forall x :: x in candidates[..i + 1] <==> x in candidates[..i] || x == candidates[i]
  {
    var prefix, next := candidates[..i], candidates[..i + 1];
    assert next[..|next| - 1] == prefix && next[|next| - 1] == candidates[i];
    InDistinct(prefix, candidates[i]);
  }

  /** The `seen`-set loop of `get_team_members_list`: keeps the first occurrence of each name. */
  method RemoveRepeats(candidates: seq<string>) returns (unique: seq<string>)
    ensures unique == Distinct(candidates)
  {
    var seen: set<string> := {};
    unique := [];
    var i := 0;
    while i < |candidates|
      invariant 0 <= i <= |candidates|
      invariant unique == Distinct(candidates[..i])
      invariant forall x :: x in seen <==> x in candidates[..i]
    {
      var member := candidates[i];
      DistinctStep(candidates, i);
      if member !in seen {
        seen := seen + {member};
        unique := unique + [member];
      }
      i := i + 1;
    }
    assert candidates[..i] == candidates;
  }

  /**
   * The list is never empty and has no repeats; it holds each collected
   * name, it holds nothing else besides the default, and the lead comes
   * first when there is one.
   */
  lemma TeamListShape(p: Project, names: seq<string>)
    requires names == if TeamCandidates(p) == [] then DefaultTeam else Distinct(TeamCandidates(p))
    ensures |names| > 0 && NoDuplicates(names)
    ensures forall x :: x in TeamCandidates(p) ==> x in names
    ensures forall x :: x in names ==> x in TeamCandidates(p) || names == DefaultTeam
    ensures LeadEntry(p) != [] ==> names[0] == LeadEntry(p)[0]
  {
    var c := TeamCandidates(p);
    if c != [] {
      assert c[0] in c;
      DistinctHead(c);
    }
  }

  lemma {:induction false} DistinctHead<T>(s: seq<T>)
    requires s != []
    ensures Distinct(s) != [] && Distinct(s)[0] == s[0]
  {
    if |s| > 1 {
      DistinctHead(s[..|s| - 1]);
    }
  }

  /** Every name of the list is stripped and non-blank. */
  predicate AllStripped(names: seq<string>) {
    forall x :: x in names ==> x != "" && Strip(x) == x
  }

  /** Every collected member name is stripped and non-blank. */
  lemma {:induction false} OtherMembersStripped(t: TeamField)
    ensures AllStripped(OtherMembers(t))
  {
    match t
    case TeamList(items) => ListedNamesStripped(items);
    case TeamText(text) => SplitNamesStripped(Split(text, ','));
    case NoTeam =>
    case TeamOther =>
  }

  lemma {:induction false} ListedNamesStripped(items: seq<Member>)
    ensures AllStripped(ListedNames(items))
  {
    if items != [] {
      var prefix := items[..|items| - 1];
      ListedNamesStripped(prefix);
      match items[|items| - 1]
      case MemberName(n) =>
        KeptStripped(ListedNames(prefix), n);
      case MemberRecord(_) =>
      case MemberOther =>
    }
  }

  lemma {:induction false} SplitNamesStripped(parts: seq<string>)
    ensures AllStripped(SplitNames(parts))
  {
    if parts != [] {
      SplitNamesStripped(parts[..|parts| - 1]);
      KeptStripped(SplitNames(parts[..|parts| - 1]), parts[|parts| - 1]);
    }
  }

  /** Appending a raw name, stripped and only when it is not blank, keeps the list stripped. */
  lemma {:induction false} KeptStripped(names: seq<string>, raw: string)
    requires AllStripped(names)
    ensures AllStripped(names + (if Strip(raw) != "" then [Strip(raw)] else []))
  {
    var t := Strip(raw);
    if t != "" {
      StripIdempotent(raw);
      AppendStripped(names, t);
    } else {
      assert names + [] == names;
    }
  }

  lemma {:induction false} AppendStripped(names: seq<string>, t: string)
    requires AllStripped(names) && t != "" && Strip(t) == t
    ensures AllStripped(names + [t])
  {
    forall x | x in names + [t] ensures x != "" && Strip(x) == x {
      assert x in names || x == t;
    }
  }

  lemma StripIdempotent(s: string)
    ensures Strip(Strip(s)) == Strip(s)
  {
    var r := Strip(s);
    StripLeftStops(r);
    StripRightStops(r);
  }

  lemma StripLeftStops(s: string)
    requires s == [] || !IsSpace(s[0])
    ensures StripLeft(s) == s
  {
  }

  lemma StripRightStops(s: string)
    requires s == [] || !IsSpace(s[|s| - 1])
    ensures StripRight(s) == s
  {
  }

  // ------------------------------------------------------------ stakeholders

  datatype Stakeholder = Stakeholder(name: Value, role: string, influence: string, interest: string)

  datatype Stakeholders = Stakeholders(primary: seq<Stakeholder>, secondary: seq<Stakeholder>,
                                       internal: seq<Stakeholder>, external: seq<Stakeholder>)

  /**
   * The register iterates `Team_Members` and calls `.get` on each element:
   * only a missing field, an empty string or a list of member records get
   * through. A value that cannot be iterated raises `TypeError`; a list
   * element other than a record, or a character of a non-empty text, has no
   * `.get` and raises `AttributeError`.
   */
  predicate MembersAreRecords(t: TeamField) {
    match t
    case NoTeam => true
    case TeamText(text) => text == ""
    case TeamList(items) => forall i :: 0 <= i < |items| ==> items[i].MemberRecord?
    case TeamOther => false
  }

  function TeamStakeholders(items: seq<Member>): (r: seq<Stakeholder>)
    requires forall i :: 0 <= i < |items| ==> items[i].MemberRecord?
    ensures |r| == |items|
  {
    if items == [] then []
    else TeamStakeholders(items[..|items| - 1])
         + [Stakeholder(Get(items[|items| - 1].info.name, Str("Unknown")), "Team Member", "Medium", "High")]
  }

  /** The client when set, the coordinator, then one entry per team member; or the team loop's exception. */
  function PrimaryStakeholders(p: Project): (r: Outcome<seq<Stakeholder>>)
    ensures r.Returns? <==> MembersAreRecords(p.teamMembers)
    ensures r.Raises? ==> r.error == if p.teamMembers.TeamOther? then TypeError else AttributeError
  {
    if p.teamMembers.TeamOther? then Raises(TypeError)
    else if !MembersAreRecords(p.teamMembers) then Raises(AttributeError)
    else
      var client := Get(p.clientName, Null);
      Returns((if Truthy(client) then [Stakeholder(client, "Project Sponsor/Client", "High", "High")] else [])
              + [Stakeholder(Str("Cole Folkers"), "Project Manager/Coordinator", "High", "High")]
              + (match p.teamMembers
                 case TeamList(items) => TeamStakeholders(items)
                 case _ => []))
  }

  function SecondaryStakeholders(p: Project): seq<Stakeholder> {
    var ministry := Get(p.ministry, Null);
    if Truthy(ministry) then [Stakeholder(ministry, "Ministry/Department", "Medium", "Medium")] else []
  }

  /**
   * `project.get('Client_Email', '')` as the right operand of the `in`
   * test: a text, or `TypeError` for a null or a number, which cannot be
   * searched.
   */
  function ClientEmail(p: Project): (r: Outcome<string>)
    ensures r.Raises? <==> p.clientEmail.Some? && !p.clientEmail.value.Str?
    ensures r.Raises? ==> r.error == TypeError
    ensures p.clientEmail.None? ==> r == Returns("")
  {
    match p.clientEmail
    case None => Returns("")
    case Some(Str(s)) => Returns(s)
    case Some(_) => Raises(TypeError)
  }

  /** A stakeholder is internal when the client email is a government one or its role names a ministry. */
  predicate IsInternal(email: string, s: Stakeholder) {
    Contains(email, "gov.bc.ca") || Contains(s.role, "Ministry")
  }

  /** The two sides of the split, as filters. */
  function Internal(email: string): Stakeholder -> bool {
    s => IsInternal(email, s)
  }

  function External(email: string): Stakeholder -> bool {
    s => !IsInternal(email, s)
  }

  /** The classification loop over the primary then the secondary stakeholders. */
  method ClassifyStakeholders(all: seq<Stakeholder>, email: string)
    returns (internal: seq<Stakeholder>, external: seq<Stakeholder>)
    ensures internal == Filter(all, Internal(email))
    ensures external == Filter(all, External(email))
  {
    internal, external := [], [];
    var i := 0;
    while i < |all|
      invariant 0 <= i <= |all|
      invariant internal == Filter(all[..i], Internal(email))
      invariant external == Filter(all[..i], External(email))
    {
      assert all[..i + 1][..i] == all[..i];
      if IsInternal(email, all[i]) {
        internal := internal + [all[i]];
      } else {
        external := external + [all[i]];
      }
      i := i + 1;
    }
    assert all[..i] == all;
  }

  /**
   * `get_stakeholder_analysis`: the team loop raises first, `TypeError` for
   * a team value that cannot be iterated and `AttributeError` for an element
   * that is not a record; then the classification raises `TypeError` when
   * the client email is not a text, since the coordinator is always there
   * to be classified. Otherwise the register and its internal and external
   * split.
   */
  method StakeholderAnalysis(p: Project) returns (r: Outcome<Stakeholders>)
    ensures r.Raises? <==> !MembersAreRecords(p.teamMembers) || ClientEmail(p).Raises?
    ensures r.Raises? ==>
      r.error == (if p.teamMembers.TeamOther? then TypeError
                  else if !MembersAreRecords(p.teamMembers) then AttributeError
                  else TypeError)
    ensures r.Returns? ==>
      r.value.primary == PrimaryStakeholders(p).value && r.value.secondary == SecondaryStakeholders(p)
    ensures r.Returns? ==>
      r.value.internal == Filter(r.value.primary + r.value.secondary, Internal(ClientEmail(p).value))
      && r.value.external == Filter(r.value.primary + r.value.secondary, External(ClientEmail(p).value))
  {
    var primary := PrimaryStakeholders(p);
    if primary.Raises? {
      return Raises(primary.error);
    }
    var secondary := SecondaryStakeholders(p);
    var email := ClientEmail(p);
    if email.Raises? {
      return Raises(email.error);
    }
    var internal, external := ClassifyStakeholders(primary.value + secondary, email.value);
    r := Returns(Stakeholders(primary.value, secondary, internal, external));
  }

  /**
   * The primary list has the client when it is set, the coordinator, and one
   * entry per team member; internal and external split the register.
   */
  lemma StakeholderCounts(p: Project)
    requires MembersAreRecords(p.teamMembers)
    ensures PrimaryStakeholders(p).Returns?
    ensures |PrimaryStakeholders(p).value| == (if Truthy(Get(p.clientName, Null)) then 1 else 0) + 1
      + (if p.teamMembers.TeamList? then |p.teamMembers.items| else 0)
    ensures ClientEmail(p).Returns? ==>
      var all := PrimaryStakeholders(p).value + SecondaryStakeholders(p);
      var email := ClientEmail(p).value;
      |Filter(all, Internal(email))| + |Filter(all, External(email))| == |all|
  {
    if ClientEmail(p).Returns? {
      var email := ClientEmail(p).value;
      FilterSplit(PrimaryStakeholders(p).value + SecondaryStakeholders(p), Internal(email), External(email));
    }
  }

  /**
   * With a government client email everyone is internal; otherwise exactly
   * the ministry entry is, since no other role mentions a ministry.
   */
  lemma {:induction false} InternalStakeholders(p: Project)
    ensures PrimaryStakeholders(p).Returns? && ClientEmail(p).Returns? ==>
      var email := ClientEmail(p).value;
      var all := PrimaryStakeholders(p).value + SecondaryStakeholders(p);
      (Contains(email, "gov.bc.ca") ==> Filter(all, Internal(email)) == all)
      && (!Contains(email, "gov.bc.ca") ==> Filter(all, Internal(email)) == SecondaryStakeholders(p))
  {
    if PrimaryStakeholders(p).Returns? && ClientEmail(p).Returns? {
      var prim, sec := PrimaryStakeholders(p).value, SecondaryStakeholders(p);
      forall s | s in prim
        ensures !Contains(s.role, "Ministry")
      {
        PrimaryRoles(p, s);
      }
      SecondaryRoles(p);
      SplitByRole(prim, sec, ClientEmail(p).value);
    }
  }

  /** The ministry entry's role names a ministry. */
  lemma SecondaryRoles(p: Project)
    ensures forall s :: s in SecondaryStakeholders(p) ==> Contains(s.role, "Ministry")
  {
    var role := "Ministry/Department";
    assert "Ministry" <= role;
  }

  /** The filter over a register whose first part names no ministry and whose second part is all ministries. */
  lemma SplitByRole(prim: seq<Stakeholder>, sec: seq<Stakeholder>, email: string)
    requires forall s :: s in prim ==> !Contains(s.role, "Ministry")
    requires forall s :: s in sec ==> Contains(s.role, "Ministry")
    ensures Contains(email, "gov.bc.ca") ==> Filter(prim + sec, Internal(email)) == prim + sec
    ensures !Contains(email, "gov.bc.ca") ==> Filter(prim + sec, Internal(email)) == sec
  {
    if Contains(email, "gov.bc.ca") {
      FilterAll(prim + sec, Internal(email));
    } else {
      FilterNone(prim, Internal(email));
      FilterAll(sec, Internal(email));
      FilterAppend(prim, sec, Internal(email));
    }
  }

  lemma PrimaryRoles(p: Project, s: Stakeholder)
    requires PrimaryStakeholders(p).Returns? && s in PrimaryStakeholders(p).value
    ensures !Contains(s.role, "Ministry")
  {
    var client := Get(p.clientName, Null);
    var head := (if Truthy(client) then [Stakeholder(client, "Project Sponsor/Client", "High", "High")] else [])
      + [Stakeholder(Str("Cole Folkers"), "Project Manager/Coordinator", "High", "High")];
    if s in head {
      NoCapitalM(s.role);
    } else {
      assert p.teamMembers.TeamList?;
      TeamRoles(p.teamMembers.items, s);
      NoCapitalM(s.role);
    }
  }

  lemma {:induction false} TeamRoles(items: seq<Member>, s: Stakeholder)
    requires forall i :: 0 <= i < |items| ==> items[i].MemberRecord?
    requires s in TeamStakeholders(items)
    ensures s.role == "Team Member"
  {
    var prefix := TeamStakeholders(items[..|items| - 1]);
    if s in prefix {
      TeamRoles(items[..|items| - 1], s);
    }
  }

  /** None of the other roles has a 'y', so none mentions a ministry. */
  lemma NoCapitalM(role: string)
    requires role in ["Project Sponsor/Client", "Project Manager/Coordinator", "Team Member"]
    ensures !Contains(role, "Ministry")
  {
    assert 'y' !in role by {
      if role == "Project Sponsor/Client" {
        assert 'y' !in "Project Sponsor/Client";
      } else if role == "Project Manager/Coordinator" {
        assert 'y' !in "Project Manager/Coordinator";
      } else {
        assert 'y' !in "Team Member";
      }
    }
    MissingCharNotContained(role, "Ministry", 'y');
  }

  lemma MissingCharNotContained(s: string, sub: string, c: char)
    requires c in sub && c !in s
    ensures !Contains(s, sub)
  {
    if Contains(s, sub) {
      ContainsHasChars(s, sub, c);
    }
  }

  lemma {:induction false} FilterAll<T>(s: seq<T>, keep: T -> bool)
    requires forall x :: x in s ==> keep(x)
    ensures Filter(s, keep) == s
  {
    if s != [] {
      FilterAll(s[..|s| - 1], keep);
      assert s == s[..|s| - 1] + [s[|s| - 1]];
    }
  }

  lemma {:induction false} FilterNone<T>(s: seq<T>, keep: T -> bool)
    requires forall x :: x in s ==> !keep(x)
    ensures Filter(s, keep) == []
  {
    if s != [] {
      FilterNone(s[..|s| - 1], keep);
    }
  }

  lemma {:induction false} FilterAppend<T>(a: seq<T>, b: seq<T>, keep: T -> bool)
    ensures Filter(a + b, keep) == Filter(a, keep) + Filter(b, keep)
  {
    if b != [] {
      FilterAppend(a, b[..|b| - 1], keep);
      assert (a + b)[..|a + b| - 1] == a + b[..|b| - 1];
    } else {
      assert a + b == a;
    }
  }

  // ------------------------------------------------------------ front matter

  /** `sub` occurs in `s` at position `k`. */
  predicate OccursAt(s: string, sub: string, k: nat) {
    k + |sub| <= |s| && s[k..k + |sub|] == sub
  }

  /** `s.find(sub, start)`: the first position at or after `start` where `sub` occurs. */
  function FindFrom(s: string, sub: string, start: nat): (r: Option<nat>)
    requires |sub| > 0
    ensures r.Some? ==> start <= r.value && OccursAt(s, sub, r.value)
    ensures r.Some? ==> forall k: nat :: start <= k < r.value ==> !OccursAt(s, sub, k)
    ensures r.None? ==> forall k: nat :: start <= k ==> !OccursAt(s, sub, k)
    decreases |s| - start
  {
    if start + |sub| > |s| then None
    else if OccursAt(s, sub, start) then Some(start)
    else FindFrom(s, sub, start + 1)
  }

  const Fence: string := "---\n"
  const Closing: string := "\n---\n"

  /** The front-matter text and the body, when the note opens with a fenced block. */
  function FrontMatterSplit(content: string): Option<(string, string)> {
    if Fence <= content then
      match FindFrom(content, Closing, 4)
      case Some(e) => Some((content[4..e], content[e + 5..]))
      case None => None
    else None
  }

  /** What `read_dendron_note` returns: the stripped body, the parsed front matter's text, the whole note. */
  datatype Note = Note(content: string, frontMatter: Option<string>, fullContent: string)

  /**
   * `read_dendron_note` on the text of a note; `yamlAccepts` says whether the
   * YAML parser accepted the front-matter text (when it raises, the body
   * stays the whole note).
   */
  function ReadNote(content: string, yamlAccepts: bool): (r: Note)
    ensures r.fullContent == content
    ensures FrontMatterSplit(content).None? || !yamlAccepts ==> r == Note(Strip(content), None, content)
  {
    match FrontMatterSplit(content)
    case Some((front, body)) =>
      if yamlAccepts then Note(Strip(body), Some(front), content) else Note(Strip(content), None, content)
    case None => Note(Strip(content), None, content)
  }

  /**
   * A note written as a fence, a front-matter text with no closing fence
   * inside it, a closing fence and a body splits back into that text and
   * that body.
   */
  lemma FrontMatterRoundTrip(front: string, body: string)
    requires forall k: nat :: k < |front| ==> !OccursAt(front + Closing, Closing, k)
    ensures FrontMatterSplit(Fence + front + Closing + body) == Some((front, body))
  {
    var content := Fence + front + Closing + body;
    var e := 4 + |front|;
    assert content[e..e + 5] == Closing;
    assert OccursAt(content, Closing, e);
    forall k: nat | 4 <= k < e
      ensures !OccursAt(content, Closing, k)
    {
      assert !OccursAt(front + Closing, Closing, k - 4);
      assert content[k..k + 5] == (front + Closing)[k - 4..k - 4 + 5];
    }
    var found := FindFrom(content, Closing, 4);
    assert found == Some(e);
    assert content[4..e] == front;
    assert content[e + 5..] == body;
  }

  /**
   * Reading a note written as a fence, a front-matter text, a closing fence
   * and a body, when the YAML parser accepts the text, gives the stripped
   * body and that front-matter text.
   */
  lemma ReadComposedNote(front: string, body: string)
    requires forall k: nat :: k < |front| ==> !OccursAt(front + Closing, Closing, k)
    ensures ReadNote(Fence + front + Closing + body, true)
      == Note(Strip(body), Some(front), Fence + front + Closing + body)
  {
    FrontMatterRoundTrip(front, body);
  }

  /** A split loses nothing: the fence, the front matter, the closing fence and the body give the note back. */
  lemma FrontMatterSplitReassembles(content: string)
    ensures FrontMatterSplit(content).Some? ==>
      content == Fence + FrontMatterSplit(content).value.0 + Closing + FrontMatterSplit(content).value.1
  {
    if FrontMatterSplit(content).Some? {
      var e := FindFrom(content, Closing, 4).value;
      assert content == content[..4] + content[4..e] + content[e..e + 5] + content[e + 5..];
    }
  }
}
