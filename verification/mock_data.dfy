/** The in-memory mock store: four departments, four staff members, three
    issues and three notifications, with issue times expressed relative to
    the moment the module is loaded (`now`), and the status colour table. */
module MockData {
  import opened Wrappers
  import opened Domain
  import Seqs

  /** Milliseconds in a day. */
  const DayMillis: int := 86400000

  /** `daysAgo(n)`: the instant `n` whole days before `now`. */
  function DaysAgo(now: Timestamp, n: int): (t: Timestamp)
    ensures n >= 0 ==> t <= now
    ensures n > 0 ==> t < now
  {
    now - n * DayMillis
  }

  /** A larger day count gives a strictly earlier instant. */
  lemma DaysAgoStrictlyDecreasing(now: Timestamp, m: int, n: int)
    requires m < n
    ensures DaysAgo(now, n) < DaysAgo(now, m)
    ensures DaysAgo(now, m) - DaysAgo(now, n) == (n - m) * DayMillis
  {
  }

  // ---------------------------------------------------------------------
  // The mock collections

  function Departments(): seq<Department> {
    [ Department("sanitation", "Sanitation", Some("Waste management and cleanliness")),
      Department("roads", "Roads", Some("Road repairs and maintenance")),
      Department("power", "Power", Some("Electrical infrastructure")),
      Department("water", "Water", Some("Water supply and drainage")) ]
  }

  function StaffMembers(): seq<StaffMember> {
    [ StaffMember("u1", "Anita Sharma", Admin, "sanitation", "anita@jh.gov.in", None, Some(StaffStats(132, 28))),
      StaffMember("u2", "Ravi Kumar", DeptHead, "roads", "ravi@jh.gov.in", None, Some(StaffStats(98, 42))),
      StaffMember("u3", "Sunil Das", Staff, "roads", "sunil@jh.gov.in", None, Some(StaffStats(61, 39))),
      StaffMember("u4", "Pooja Verma", Staff, "sanitation", "pooja@jh.gov.in", None, Some(StaffStats(77, 31))) ]
  }

  /** The three mock issues, ids i1001 to i1003, whatever the load time. */
  function Issues(now: Timestamp): (r: seq<Issue>)
    ensures IssueIds(r) == ["i1001", "i1002", "i1003"]
  {
    [ Issue(
        "i1001", "Pothole", "Large pothole near Sector 4 market", None, Some("/placeholder.svg"),
        DaysAgo(now, 5), DaysAgo(now, 2),
        Location(23.6102, 85.2799, Some("Ward 12"), Some("Sector 4, Bokaro Steel City")),
        InProgress, Some("u3"),
        Some(CitizenInfo("Rahul Singh", "+91 98765 43210", None, Some(En))),
        Some([ TimelineEntry(DaysAgo(now, 5), Pending, Some("Reported by citizen"), None),
               TimelineEntry(DaysAgo(now, 4), InProgress, Some("Assigned to Roads team"), Some("u2")) ]),
        None),
      Issue(
        "i1002", "Garbage", "Overflowing garbage bin behind community hall", None, Some("/placeholder.svg"),
        DaysAgo(now, 2), DaysAgo(now, 1),
        Location(23.3441, 85.3096, Some("Ward 6"), Some("Ashok Nagar, Ranchi")),
        Critical, Some("u4"),
        Some(CitizenInfo("Sita Devi", "+91 99887 77665", None, Some(Hi))),
        Some([ TimelineEntry(DaysAgo(now, 2), Pending, None, None),
               TimelineEntry(DaysAgo(now, 1), Critical, Some("Escalated due to smell and animals"), None) ]),
        None),
      Issue(
        "i1003", "Streetlight", "Streetlight flickering near Block B, House 12", None, Some("/placeholder.svg"),
        DaysAgo(now, 10), DaysAgo(now, 1),
        Location(22.8046, 86.2029, Some("Ward 3"), Some("Sakchi, Jamshedpur")),
        Resolved, Some("u1"),
        Some(CitizenInfo("Imran Ali", "+91 90123 45678", None, Some(En))),
        Some([ TimelineEntry(DaysAgo(now, 10), Pending, None, None),
               TimelineEntry(DaysAgo(now, 8), InProgress, Some("Part ordered"), None),
               TimelineEntry(DaysAgo(now, 1), Resolved, Some("Replaced"), None) ]),
        None) ]
  }

  function Notifications(now: Timestamp): seq<NotificationItem> {
    [ NotificationItem("n1", NewIssue, "New issue reported", "Garbage overflow in Ashok Nagar", DaysAgo(now, 0), None, None),
      NotificationItem("n2", Assignment, "Task assigned", "Pothole near Sector 4 to Sunil Das", DaysAgo(now, 1), None, None),
      NotificationItem("n3", StatusUpdate, "Status updated", "Streetlight issue resolved", DaysAgo(now, 1), None, None) ]
  }

  /** The whole store, as loaded at instant `now`. */
  datatype Store = Store(
    departments: seq<Department>,
    staff: seq<StaffMember>,
    issues: seq<Issue>,
    notifications: seq<NotificationItem>)

  /** The whole mock store; it meets every store invariant below. */
  function MockStore(now: Timestamp): (s: Store)
    ensures WellFormedStore(s)
  {
    MockIdsDistinct(now);
    MockReferencesResolve(now);
    MockHistoriesConsistent(now);
    Store(Departments(), StaffMembers(), Issues(now), Notifications(now))
  }

  lemma MockIdsDistinct(now: Timestamp)
    ensures Seqs.Distinct(DepartmentIds(Departments()))
    ensures Seqs.Distinct(StaffIds(StaffMembers()))
    ensures Seqs.Distinct(IssueIds(Issues(now)))
  {
    assert DepartmentIds(Departments()) == ["sanitation", "roads", "power", "water"];
    assert StaffIds(StaffMembers()) == ["u1", "u2", "u3", "u4"];
  }

  lemma MockReferencesResolve(now: Timestamp)
    ensures forall k :: 0 <= k < |StaffMembers()| ==> StaffMembers()[k].departmentId in DepartmentIds(Departments())
    ensures forall k :: 0 <= k < |Issues(now)| && Issues(now)[k].assignedTo.Some? ==>
      Issues(now)[k].assignedTo.value in StaffIds(StaffMembers())
  {
    assert DepartmentIds(Departments()) == ["sanitation", "roads", "power", "water"];
    assert StaffIds(StaffMembers()) == ["u1", "u2", "u3", "u4"];
  }

  lemma MockHistoriesConsistent(now: Timestamp)
    ensures forall k :: 0 <= k < |Issues(now)| ==> HistoryConsistent(Issues(now)[k])
  {
  }

  // ---------------------------------------------------------------------
  // Store invariants

  function DepartmentIds(ds: seq<Department>): (ids: seq<string>)
    ensures |ids| == |ds| && forall k :: 0 <= k < |ds| ==> ids[k] == ds[k].id
  {
    seq(|ds|, k requires 0 <= k < |ds| => ds[k].id)
  }

  function StaffIds(ss: seq<StaffMember>): (ids: seq<string>)
    ensures |ids| == |ss| && forall k :: 0 <= k < |ss| ==> ids[k] == ss[k].id
  {
    seq(|ss|, k requires 0 <= k < |ss| => ss[k].id)
  }

  function IssueIds(xs: seq<Issue>): (ids: seq<string>)
    ensures |ids| == |xs| && forall k :: 0 <= k < |xs| ==> ids[k] == xs[k].id
  {
    seq(|xs|, k requires 0 <= k < |xs| => xs[k].id)
  }

  /** Timeline times never go backwards. */
  predicate TimeOrdered(tl: seq<TimelineEntry>) {
    forall k :: 0 < k < |tl| ==> tl[k - 1].at <= tl[k].at
  }

  /** The history of an issue: when a timeline is present it starts with
      the report (PENDING at creation time), is in time order, ends in the
      current status, and its last entry is no later than the last update. */
  predicate HistoryConsistent(i: Issue) {
    && i.createdAt <= i.updatedAt
    && (i.timeline.Some? ==>
          var tl := i.timeline.value;
          && |tl| > 0
          && tl[0].status == Pending
          && tl[0].at == i.createdAt
          && tl[|tl| - 1].status == i.status
          && tl[|tl| - 1].at <= i.updatedAt
          && TimeOrdered(tl))
  }

  /** Referential integrity, id uniqueness and issue histories. */
  predicate WellFormedStore(s: Store) {
    && Seqs.Distinct(DepartmentIds(s.departments))
    && Seqs.Distinct(StaffIds(s.staff))
    && Seqs.Distinct(IssueIds(s.issues))
    && (forall k :: 0 <= k < |s.staff| ==> s.staff[k].departmentId in DepartmentIds(s.departments))
    && (forall k :: 0 <= k < |s.issues| && s.issues[k].assignedTo.Some? ==>
          s.issues[k].assignedTo.value in StaffIds(s.staff))
    && (forall k :: 0 <= k < |s.issues| ==> HistoryConsistent(s.issues[k]))
  }

  /** The mock store satisfies every store invariant whatever the load time,
      and every mock issue is assigned and carries a timeline. */
  lemma MockStoreWellFormed(now: Timestamp)
    ensures WellFormedStore(MockStore(now))
    ensures forall k :: 0 <= k < |Issues(now)| ==>
      Issues(now)[k].assignedTo.Some? && Issues(now)[k].timeline.Some?
  {
  }

  // ---------------------------------------------------------------------
  // Status colours

  /** `statusColor`: the text colour class of a status. */
  function StatusColor(s: IssueStatus): (r: string)
    ensures |r| > 5 && r[..5] == "text-"
  {
    match s
    case Critical => "text-status-critical"
    case Pending => "text-status-warning"
    case InProgress => "text-primary"
    case Resolved => "text-status-success"
  }

  /** Different statuses get different colours. */
  lemma StatusColorInjective(a: IssueStatus, b: IssueStatus)
    ensures StatusColor(a) == StatusColor(b) <==> a == b
  {
  }
}
