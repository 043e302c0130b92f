/** The shared record shapes and closed string unions of the portal:
    roles, languages, issue statuses, issues with their location and
    timeline, departments, staff members and notifications. */
module Domain {
  import opened Wrappers

  /** `Role`: exactly the three staff roles. */
  datatype Role = Admin | DeptHead | Staff

  /** `LanguageCode`: exactly English and Hindi. */
  datatype LanguageCode = En | Hi

  /** `IssueStatus`: exactly the four lifecycle states. */
  datatype IssueStatus = Pending | InProgress | Resolved | Critical

  /** The `type` union of a notification. */
  datatype NotificationKind = NewIssue | Assignment | StatusUpdate

  /** A point in time in milliseconds since the epoch; the source stores ISO strings. */
  type Timestamp = int

  datatype CitizenInfo = CitizenInfo(
    name: string,
    phone: string,
    email: Option<string>,
    language: Option<LanguageCode>)

  /** Latitude and longitude are carried as opaque numbers; `ward` and
      `address` may each be absent. */
  datatype Location = Location(
    lat: real,
    lng: real,
    ward: Option<string>,
    address: Option<string>)

  /** One status record of an issue's history; `actor` is the source's `by` staff id. */
  datatype TimelineEntry = TimelineEntry(
    at: Timestamp,
    status: IssueStatus,
    note: Option<string>,
    actor: Option<string>)

  /** A reported civic problem. `assignedTo` is a plain staff id that need
      not resolve to any staff member. */
  datatype Issue = Issue(
    id: string,
    category: string,
    description: string,
    voiceNoteText: Option<string>,
    photoUrl: Option<string>,
    createdAt: Timestamp,
    updatedAt: Timestamp,
    location: Location,
    status: IssueStatus,
    assignedTo: Option<string>,
    reporter: Option<CitizenInfo>,
    timeline: Option<seq<TimelineEntry>>,
    attachments: Option<seq<string>>)

  datatype Department = Department(id: string, name: string, description: Option<string>)

  /** The cached per-staff summary; the mock data holds whole numbers only. */
  datatype StaffStats = StaffStats(resolved: int, avgTimeHours: int)

  datatype StaffMember = StaffMember(
    id: string,
    name: string,
    role: Role,
    departmentId: string,
    email: string,
    phone: Option<string>,
    stats: Option<StaffStats>)

  datatype NotificationItem = NotificationItem(
    id: string,
    kind: NotificationKind,
    title: string,
    message: string,
    createdAt: Timestamp,
    read: Option<bool>,
    issueId: Option<string>)

  // ---------------------------------------------------------------------
  // Wire names of the closed unions

  const StatusNames: seq<string> := ["PENDING", "IN_PROGRESS", "RESOLVED", "CRITICAL"]
  const RoleNames: seq<string> := ["ADMIN", "DEPT_HEAD", "STAFF"]
  const LanguageNames: seq<string> := ["en", "hi"]
  const NotificationKindNames: seq<string> := ["NEW_ISSUE", "ASSIGNMENT", "STATUS_UPDATE"]

  function StatusName(s: IssueStatus): (t: string)
    ensures t in StatusNames
  {
    match s
    case Pending => "PENDING"
    case InProgress => "IN_PROGRESS"
    case Resolved => "RESOLVED"
    case Critical => "CRITICAL"
  }

  /** Reads a status string; only the four wire names are statuses. */
  function ParseStatus(t: string): (r: Option<IssueStatus>)
    ensures r.Some? <==> t in StatusNames
    ensures r.Some? ==> StatusName(r.value) == t
  {
    if t == "PENDING" then Some(Pending)
    else if t == "IN_PROGRESS" then Some(InProgress)
    else if t == "RESOLVED" then Some(Resolved)
    else if t == "CRITICAL" then Some(Critical)
    else None
  }

  /** The four statuses have four different names, and reading a name back
      gives the status it came from. */
  lemma StatusNameRoundTrip(s: IssueStatus, s': IssueStatus)
    ensures ParseStatus(StatusName(s)) == Some(s)
    ensures StatusName(s) == StatusName(s') ==> s == s'
  {
  }

  function RoleName(r: Role): (t: string)
    ensures t in RoleNames
  {
    match r
    case Admin => "ADMIN"
    case DeptHead => "DEPT_HEAD"
    case Staff => "STAFF"
  }

  /** Reads a role string; only the three wire names are roles. */
  function ParseRole(t: string): (r: Option<Role>)
    ensures r.Some? <==> t in RoleNames
    ensures r.Some? ==> RoleName(r.value) == t
  {
    if t == "ADMIN" then Some(Admin)
    else if t == "DEPT_HEAD" then Some(DeptHead)
    else if t == "STAFF" then Some(Staff)
    else None
  }

  lemma RoleNameRoundTrip(r: Role, r': Role)
    ensures ParseRole(RoleName(r)) == Some(r)
    ensures RoleName(r) == RoleName(r') ==> r == r'
  {
  }

  function LanguageName(l: LanguageCode): (t: string)
    ensures t in LanguageNames
  {
    match l
    case En => "en"
    case Hi => "hi"
  }

  /** Reads a language code; only "en" and "hi" are languages. */
  function ParseLanguage(t: string): (r: Option<LanguageCode>)
    ensures r.Some? <==> t in LanguageNames
    ensures r.Some? ==> LanguageName(r.value) == t
  {
    if t == "en" then Some(En)
    else if t == "hi" then Some(Hi)
    else None
  }

  lemma LanguageNameRoundTrip(l: LanguageCode, l': LanguageCode)
    ensures ParseLanguage(LanguageName(l)) == Some(l)
    ensures LanguageName(l) == LanguageName(l') ==> l == l'
  {
  }

  function NotificationKindName(k: NotificationKind): (t: string)
    ensures t in NotificationKindNames
  {
    match k
    case NewIssue => "NEW_ISSUE"
    case Assignment => "ASSIGNMENT"
    case StatusUpdate => "STATUS_UPDATE"
  }

  /** Reads a notification type; only the three wire names are types. */
  function ParseNotificationKind(t: string): (r: Option<NotificationKind>)
    ensures r.Some? <==> t in NotificationKindNames
    ensures r.Some? ==> NotificationKindName(r.value) == t
  {
    if t == "NEW_ISSUE" then Some(NewIssue)
    else if t == "ASSIGNMENT" then Some(Assignment)
    else if t == "STATUS_UPDATE" then Some(StatusUpdate)
    else None
  }

  lemma NotificationKindNameRoundTrip(k: NotificationKind, k': NotificationKind)
    ensures ParseNotificationKind(NotificationKindName(k)) == Some(k)
    ensures NotificationKindName(k) == NotificationKindName(k') ==> k == k'
  {
  }
}
