/** The issue table's query: the status, category and free-text filters
    combined with AND over the issue list, the category drop-down, the
    Reset button, and the cells derived from an issue row. */
module IssueQuery {
  import opened Wrappers
  import opened Domain
  import Seqs
  import Text
  import MockData

  /** The page's filter controls. `status` and `category` hold "all" or a
      value; `q` is the raw search box text. */
  datatype FilterState = FilterState(status: string, category: string, q: string)

  /** The controls as the page first renders them. */
  const Initial: FilterState := FilterState("all", "all", "")

  /** The Reset button clears the search box and sets both selects back to "all". */
  function Reset(f: FilterState): (r: FilterState)
    ensures r == Initial
  {
    f.(q := "", status := "all", category := "all")
  }

  predicate StatusMatches(status: string, i: Issue) {
    status == "all" || StatusName(i.status) == status
  }

  predicate CategoryMatches(category: string, i: Issue) {
    category == "all" || i.category == category
  }

  /** The search box: ignored when it trims to "", otherwise the lower-cased
      query (untrimmed) must occur in the lower-cased description or, when
      present, the lower-cased address. */
  predicate TextMatches(q: string, i: Issue) {
    || Text.Trim(q) == ""
    || Text.Includes(Text.Lower(i.description), Text.Lower(q))
    || (i.location.address.Some? && Text.Includes(Text.Lower(i.location.address.value), Text.Lower(q)))
  }

  predicate Matches(f: FilterState, i: Issue) {
    StatusMatches(f.status, i) && CategoryMatches(f.category, i) && TextMatches(f.q, i)
  }

  /** The filter callback for the given controls. */
  function MatchesFn(f: FilterState): Issue -> bool {
    i => Matches(f, i)
  }

  /** The rows shown for the current controls. */
  function Apply(all: seq<Issue>, f: FilterState): (r: seq<Issue>)
    ensures |r| <= |all|
    ensures forall k :: 0 <= k < |r| ==> r[k] in all && Matches(f, r[k])
    ensures forall k :: 0 <= k < |all| && Matches(f, all[k]) ==> all[k] in r
  {
    Seqs.Filter(MatchesFn(f), all)
  }

  /** The result keeps the issues in the order of the input list. */
  lemma ApplyIsSubsequence(all: seq<Issue>, f: FilterState)
    ensures Seqs.IsSubsequence(Apply(all, f), all)
  {
    Seqs.FilterIsSubsequence(MatchesFn(f), all);
  }

  /** "all" imposes no status constraint; any other value keeps exactly the
      issues whose status is named by it (so an unknown name keeps none). */
  lemma StatusFilterMeaning(status: string, i: Issue)
    ensures status == "all" ==> StatusMatches(status, i)
    ensures status != "all" ==>
      (StatusMatches(status, i) <==> ParseStatus(status) == Some(i.status))
  {
    StatusNameRoundTrip(i.status, i.status);
  }

  /** The free-text criterion in terms of substrings: a blank query matches
      everything, and otherwise the description or a present address must
      contain the query, both lower-cased; without an address only the
      description can match. */
  lemma TextFilterMeaning(q: string, i: Issue)
    ensures TextMatches(q, i) <==>
      || Text.Blank(q)
      || Text.Contains(Text.Lower(i.description), Text.Lower(q))
      || (i.location.address.Some? && Text.Contains(Text.Lower(i.location.address.value), Text.Lower(q)))
    ensures i.location.address.None? && !Text.Blank(q) ==>
      (TextMatches(q, i) <==> Text.Contains(Text.Lower(i.description), Text.Lower(q)))
  {
    Text.TrimEmptyIffBlank(q);
    Text.IncludesIffContains(Text.Lower(i.description), Text.Lower(q));
    if i.location.address.Some? {
      Text.IncludesIffContains(Text.Lower(i.location.address.value), Text.Lower(q));
    }
  }

  /** The combined query is the intersection of the three single-criterion
      filters, applied in any nesting. */
  lemma ApplyIsIntersection(all: seq<Issue>, f: FilterState)
    ensures Apply(all, f) ==
      Seqs.Filter(i => TextMatches(f.q, i),
        Seqs.Filter(i => CategoryMatches(f.category, i),
          Seqs.Filter(i => StatusMatches(f.status, i), all)))
  {
    var s := (i: Issue) => StatusMatches(f.status, i);
    var c := (i: Issue) => CategoryMatches(f.category, i);
    var t := (i: Issue) => TextMatches(f.q, i);
    var sc := (i: Issue) => StatusMatches(f.status, i) && CategoryMatches(f.category, i);
    Seqs.FilterConjunction(MatchesFn(f), sc, t, all);
    Seqs.FilterConjunction(sc, s, c, all);
  }

  /** Adding a constraint never adds rows: relaxing any one control to its
      neutral value keeps every row already shown. */
  lemma ConstraintsOnlyNarrow(all: seq<Issue>, f: FilterState, i: Issue)
    requires i in Apply(all, f)
    ensures i in Apply(all, f.(status := "all"))
    ensures i in Apply(all, f.(category := "all"))
    ensures i in Apply(all, f.(q := ""))
  {
    var k :| 0 <= k < |Apply(all, f)| && Apply(all, f)[k] == i;
    assert Matches(f, i);
    var j :| 0 <= j < |all| && all[j] == i;
    assert Matches(f.(status := "all"), all[j]);
    assert Matches(f.(category := "all"), all[j]);
    assert Text.Trim("") == "";
    assert Matches(f.(q := ""), all[j]);
  }

  /** The first render and the state after Reset both list every issue. */
  lemma InitialAndResetShowAll(all: seq<Issue>, f: FilterState)
    ensures Apply(all, Initial) == all
    ensures Apply(all, Reset(f)) == all
  {
    var p := MatchesFn(Initial);
    forall x | x in all
      ensures p(x)
    {
      assert Text.Trim("") == "";
    }
    Seqs.FilterAll(p, all);
  }

  /** An issue of the list is shown exactly when it satisfies the controls. */
  lemma ShownIffMatches(all: seq<Issue>, f: FilterState, k: nat)
    requires k < |all|
    ensures all[k] in Apply(all, f) <==> Matches(f, all[k])
  {
    if all[k] in Apply(all, f) {
      var j :| 0 <= j < |Apply(all, f)| && Apply(all, f)[j] == all[k];
    }
  }

  /** With only the status select set, an issue matches exactly when it has
      that status. */
  lemma StatusOnlyMatches(st: IssueStatus, i: Issue)
    ensures Matches(Initial.(status := StatusName(st)), i) <==> i.status == st
  {
    var f := Initial.(status := StatusName(st));
    assert TextMatches(f.q, i) by {
      assert Text.Trim("") == "";
    }
    assert CategoryMatches(f.category, i);
    assert StatusMatches(f.status, i) <==> StatusName(i.status) == StatusName(st);
    StatusNameRoundTrip(i.status, st);
  }

  /** The status drop-down on its own, with a blank search box, keeps
      exactly the issues with the selected status. */
  lemma StatusSelectAlone(all: seq<Issue>, status: IssueStatus, k: nat)
    requires k < |all|
    ensures all[k] in Apply(all, Initial.(status := StatusName(status))) <==> all[k].status == status
  {
    ShownIffMatches(all, Initial.(status := StatusName(status)), k);
    StatusOnlyMatches(status, all[k]);
  }

  /** The category drop-down on its own, with a blank search box, keeps
      exactly the issues with the selected category. */
  lemma CategorySelectAlone(all: seq<Issue>, category: string, k: nat)
    requires category != "all" && k < |all|
    ensures all[k] in Apply(all, Initial.(category := category)) <==> all[k].category == category
  {
    ShownIffMatches(all, Initial.(category := category), k);
    assert Text.Trim("") == "";
  }

  /** With the status control on CRITICAL, the mock list narrows to the one
      critical issue, i1002. */
  lemma CriticalMockIssues(now: Timestamp)
    ensures Apply(MockData.Issues(now), FilterState("CRITICAL", "all", "")) == [MockData.Issues(now)[1]]
  {
    var xs := MockData.Issues(now);
    var p := MatchesFn(FilterState("CRITICAL", "all", ""));
    assert Text.Trim("") == "";
    assert !p(xs[0]) && p(xs[1]) && !p(xs[2]);
    assert xs[1..][1..][1..] == [];
    assert Seqs.Filter(p, xs[1..][1..]) == [];
    assert Seqs.Filter(p, xs[1..]) == [xs[1]] + Seqs.Filter(p, xs[1..][1..]);
  }

  // ---------------------------------------------------------------------
  // Category drop-down

  function Categories(all: seq<Issue>): (cs: seq<string>)
    ensures |cs| == |all| && forall k :: 0 <= k < |all| ==> cs[k] == all[k].category
  {
    seq(|all|, k requires 0 <= k < |all| => all[k].category)
  }

  /** `Array.from(new Set(allIssues.map(i => i.category)))`: each category
      of the list exactly once, in the order in which it first occurs. */
  function CategoryOptions(all: seq<Issue>): (r: seq<string>)
    ensures Seqs.Distinct(r)
    ensures forall k :: 0 <= k < |r| ==> r[k] in Categories(all)
    ensures forall k :: 0 <= k < |all| ==> all[k].category in r
    ensures forall i, j :: 0 <= i < j < |r| ==>
      Seqs.FirstIndex(Categories(all), r[i]) < Seqs.FirstIndex(Categories(all), r[j])
  {
    Seqs.DedupFirstSeenOrder(Categories(all));
    Seqs.Dedup(Categories(all))
  }

  // ---------------------------------------------------------------------
  // Row cells

  /** Position `k` holds the first staff member whose id is `id`. */
  predicate FirstWithId(staff: seq<StaffMember>, id: Option<string>, k: int) {
    0 <= k < |staff| && Some(staff[k].id) == id && forall j :: 0 <= j < k ==> Some(staff[j].id) != id
  }

  /** `staff.find(s => s.id === id)`: the first staff member with that id. */
  function FindStaff(staff: seq<StaffMember>, id: Option<string>): (r: Option<StaffMember>)
    ensures r.None? <==> forall k :: 0 <= k < |staff| ==> Some(staff[k].id) != id
    ensures r.Some? ==> exists k :: FirstWithId(staff, id, k) && staff[k] == r.value
    decreases |staff|
  {
    if |staff| == 0 then None
    else if Some(staff[0].id) == id then Some(staff[0])
    else
      var r := FindStaff(staff[1..], id);
      if r.Some? then
        var k :| FirstWithId(staff[1..], id, k) && staff[1..][k] == r.value;
        assert FirstWithId(staff, id, k + 1);
        r
      else r
  }

  /** The dash shown for an unassigned issue. */
  const NoAssignee: string := "\U{2014}"

  /** The Assigned cell: the name of the staff member `assignedTo` names,
      or a dash when it is absent, names nobody, or names someone whose
      name is empty. */
  function AssigneeCell(i: Issue, staff: seq<StaffMember>): (r: string)
    ensures i.assignedTo.None? ==> r == NoAssignee
    ensures (forall k :: 0 <= k < |staff| ==> Some(staff[k].id) != i.assignedTo) ==> r == NoAssignee
    ensures forall k :: FirstWithId(staff, i.assignedTo, k) && staff[k].name != "" ==> r == staff[k].name
    ensures forall k :: FirstWithId(staff, i.assignedTo, k) && staff[k].name == "" ==> r == NoAssignee
    ensures r == NoAssignee || exists k :: 0 <= k < |staff| && staff[k].name == r
  {
    var found := FindStaff(staff, i.assignedTo);
    if found.Some? then
      var k :| FirstWithId(staff, i.assignedTo, k) && staff[k] == found.value;
      FirstWithIdUnique(staff, i.assignedTo, k);
      if found.value.name != "" then found.value.name else NoAssignee
    else NoAssignee
  }

  /** The first position holding an id is unique. */
  lemma FirstWithIdUnique(staff: seq<StaffMember>, id: Option<string>, k: int)
    requires FirstWithId(staff, id, k)
    ensures forall j :: FirstWithId(staff, id, j) ==> j == k
  {
  }

  /** The Location cell, `address || ward`: the address when present and
      non-empty, else the ward, else nothing. The cell is blank exactly when
      the issue has neither a non-empty address nor a non-empty ward, and it
      never shows anything but one of the two. */
  function LocationCell(loc: Location): (r: string)
    ensures r == "" <==> (loc.address.None? || loc.address.value == "") && (loc.ward.None? || loc.ward.value == "")
    ensures r == "" || Some(r) == loc.address || Some(r) == loc.ward
    ensures loc.address.Some? && loc.address.value != "" ==> r == loc.address.value
  {
    if loc.address.Some? && loc.address.value != "" then loc.address.value
    else loc.ward.GetOr("")
  }

  /** `statusClass`: the badge classes of a status; IN_PROGRESS takes the
      fall-through branch. The badge carries the same text colour class as
      the status colour of the shared data module. */
  function StatusClass(s: IssueStatus): (r: string)
    ensures Text.Contains(r, MockData.StatusColor(s))
  {
    var border := BadgeBorder(s);
    var text := MockData.StatusColor(s);
    var r := border + text + BadgeBackground(s);
    assert r[|border|..|border| + |text|] == text;
    assert Text.OccursAt(r, text, |border|);
    r
  }

  function BadgeBorder(s: IssueStatus): string {
    match s
    case Critical => "border-status-critical/40 "
    case Pending => "border-status-warning/40 "
    case Resolved => "border-status-success/40 "
    case InProgress => "border-primary/40 "
  }

  function BadgeBackground(s: IssueStatus): string {
    match s
    case Critical => " bg-status-critical/10"
    case Pending => " bg-status-warning/10"
    case Resolved => " bg-status-success/10"
    case InProgress => " bg-primary/10"
  }

  /** Different statuses get different badge classes: they differ in
      length, or, for PENDING and RESOLVED, in the 15th character. */
  lemma StatusClassInjective(a: IssueStatus, b: IssueStatus)
    ensures StatusClass(a) == StatusClass(b) <==> a == b
  {
    StatusClassShape(a);
    StatusClassShape(b);
  }

  lemma StatusClassShape(s: IssueStatus)
    ensures (|StatusClass(s)|, StatusClass(s)[14]) ==
      match s
      case Critical => (68, 'c')
      case Pending => (65, 'w')
      case Resolved => (65, 's')
      case InProgress => (44, '/')
  {
    assert StatusClass(s)[14] == BadgeBorder(s)[14];
  }
}
