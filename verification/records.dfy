/**
 * The records the dashboard reads: project rows and resource-assignment rows
 * of the feature service, the team-member entries attached to projects, and
 * the outcome of one query to the service.
 *
 * A field whose type varies in the data is an `Option<Value>` (`None` when the
 * key is missing); a field the code calls string methods on is an
 * `Option<string>`.
 */
module Records {
  import opened PyValues

  /**
   * A dictionary entry of a project's `Team_Members` list, as the query
   * client builds it; the name is `None` when the entry has no such key.
   */
  datatype TeamMember = TeamMember(
    name: Option<Value>, // Resource_Name
    email: Value,        // Resource_Contact_Email
    team: Value,         // Resource_Team
    leadership: Value)   // Resource_Leadership

  /**
   * An element of a `Team_Members` list: a plain name, a member record, or
   * anything else (null, a number, a nested list).
   */
  datatype Member = MemberName(name: string) | MemberRecord(info: TeamMember) | MemberOther

  /**
   * The `Team_Members` field: missing, a list, a comma-separated string, or
   * a value with no length that cannot be iterated (null, a number, a boolean).
   */
  datatype TeamField = NoTeam | TeamList(items: seq<Member>) | TeamText(text: string) | TeamOther

  datatype Project = Project(
    id: Option<Value>,            // Project_ID
    name: Option<string>,         // Project_Name
    number: Option<Value>,        // Project_Number
    status: Option<string>,       // Project_Status
    dateRequested: Option<Value>, // Date_Requested, epoch milliseconds
    dateRequired: Option<Value>,  // Date_Required, epoch milliseconds or a date string
    requiredDate: Option<Value>,  // Required_Date
    priority: Option<string>,     // Priority_Level
    clientName: Option<Value>,    // Client_Name
    clientEmail: Option<Value>,   // Client_Email
    ministry: Option<Value>,      // Ministry
    teamLead: Option<Value>,      // Project_Team_Lead
    teamMember: Option<Value>,    // Team_Member
    teamMembers: TeamField,       // Team_Members
    manager: Option<Value>,       // Project_Manager
    coordinator: Option<Value>,   // Coordinator
    projectLead: Option<Value>,   // Project_Lead
    leadScientist: Option<Value>) // Lead_Scientist

  /** A row of the resource-assignment table. */
  datatype Resource = Resource(
    name: Option<Value>,          // Resource_Name
    projectId: Option<Value>,     // Resource_Project_ID
    resourceType: Option<Value>,  // Resource_Type
    email: Option<Value>,         // Resource_Contact_Email
    team: Option<Value>,          // Resource_Team
    leadership: Option<Value>)    // Resource_Leadership

  /** What one call to `query_layer` gave its caller: rows, or an exception. */
  datatype QueryOutcome<T> = Rows(rows: seq<T>) | Raised

  /** The rows of an outcome, an exception counting as none (the callers' `except`). */
  function RowsOrEmpty<T>(q: QueryOutcome<T>): seq<T> {
    match q
    case Rows(rows) => rows
    case Raised => []
  }
}
