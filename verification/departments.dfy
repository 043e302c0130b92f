/** The departments page: the staff name search and the cells of a staff
    row (department name, resolved count, average time). */
module Departments {
  import opened Wrappers
  import opened Domain
  import Seqs
  import Text
  import MockData

  /** The search callback: the lower-cased name contains the lower-cased
      query. Unlike the issue search the query is not trimmed. */
  function NameMatches(query: string): StaffMember -> bool {
    (s: StaffMember) => Text.Includes(Text.Lower(s.name), Text.Lower(query))
  }

  /** `staff.filter(s => s.name.toLowerCase().includes(query.toLowerCase()))`. */
  function SearchStaff(staff: seq<StaffMember>, query: string): (r: seq<StaffMember>)
    ensures |r| <= |staff|
    ensures forall k :: 0 <= k < |r| ==>
      r[k] in staff && Text.Contains(Text.Lower(r[k].name), Text.Lower(query))
    ensures forall k :: 0 <= k < |staff| && Text.Contains(Text.Lower(staff[k].name), Text.Lower(query)) ==>
      staff[k] in r
  {
    var r := Seqs.Filter(NameMatches(query), staff);
    forall s: StaffMember
      ensures NameMatches(query)(s) <==> Text.Contains(Text.Lower(s.name), Text.Lower(query))
    {
      Text.IncludesIffContains(Text.Lower(s.name), Text.Lower(query));
    }
    r
  }

  /** The search keeps the staff list order. */
  lemma SearchStaffIsSubsequence(staff: seq<StaffMember>, query: string)
    ensures Seqs.IsSubsequence(SearchStaff(staff, query), staff)
  {
    Seqs.FilterIsSubsequence(NameMatches(query), staff);
  }

  /** An empty search box lists every staff member. */
  lemma EmptyQueryListsAll(staff: seq<StaffMember>)
    ensures SearchStaff(staff, "") == staff
  {
    forall s | s in staff
      ensures NameMatches("")(s)
    {
      Text.IncludesEmpty(Text.Lower(s.name));
    }
    Seqs.FilterAll(NameMatches(""), staff);
  }

  /** A query of spaces is not ignored: it keeps only the names containing
      that run of spaces, so a one-word name is dropped by a single space. */
  lemma SpaceQueryNotIgnored(s: StaffMember)
    requires ' ' !in s.name
    ensures SearchStaff([s], " ") == []
  {
    var name := Text.Lower(s.name);
    forall i
      ensures !Text.OccursAt(name, " ", i)
    {
      if 0 <= i < |name| {
        assert name[i..i + 1] == [name[i]];
        assert s.name[i] != ' ';
      }
    }
    assert Text.Lower(" ") == " ";
    assert !Text.Contains(name, Text.Lower(" "));
  }

  /** The Department cell: the name of the first department with the staff
      member's `departmentId`, or nothing when none has it. */
  function DepartmentCell(ds: seq<Department>, id: string): (r: string)
    ensures (forall k :: 0 <= k < |ds| ==> ds[k].id != id) ==> r == ""
    ensures forall k :: 0 <= k < |ds| && ds[k].id == id && (forall j :: 0 <= j < k ==> ds[j].id != id) ==>
      r == ds[k].name
    ensures r == "" || exists k :: 0 <= k < |ds| && ds[k].id == id && ds[k].name == r
    decreases |ds|
  {
    if |ds| == 0 then ""
    else if ds[0].id == id then ds[0].name
    else DepartmentCell(ds[1..], id)
  }

  /** What the table shows for a member without statistics. */
  const NoStats: StaffStats := StaffStats(0, 0)

  /** `s.stats?.resolved ?? 0`: the resolved count of the member's
      statistics, read as all-zero statistics when there are none. */
  function ResolvedCell(s: StaffMember): (n: int)
    ensures n == s.stats.GetOr(NoStats).resolved
  {
    match s.stats
    case Some(st) => st.resolved
    case None => 0
  }

  /** `s.stats?.avgTimeHours ?? 0`, read the same way. */
  function AvgTimeCell(s: StaffMember): (n: int)
    ensures n == s.stats.GetOr(NoStats).avgTimeHours
  {
    match s.stats
    case Some(st) => st.avgTimeHours
    case None => 0
  }

  /** One row of the staff table. */
  datatype StaffRow = StaffRow(name: string, role: string, department: string, email: string,
    resolved: int, avgTimeHours: int)

  /** The row shown for a member: name, role, department name, email and
      the two statistics cells. */
  function RowOf(ds: seq<Department>, s: StaffMember): StaffRow {
    StaffRow(s.name, RoleName(s.role), DepartmentCell(ds, s.departmentId), s.email, ResolvedCell(s), AvgTimeCell(s))
  }

  /** The staff table: one row per member of the search result, in order. */
  function StaffTable(ds: seq<Department>, staff: seq<StaffMember>, query: string): (rows: seq<StaffRow>)
    ensures |rows| == |SearchStaff(staff, query)|
    ensures forall k :: 0 <= k < |rows| ==> rows[k] == RowOf(ds, SearchStaff(staff, query)[k])
  {
    var shown := SearchStaff(staff, query);
    seq(|shown|, k requires 0 <= k < |shown| => RowOf(ds, shown[k]))
  }

  /** The rows of the unfiltered mock table. */
  const MockRows: seq<StaffRow> := [
    StaffRow("Anita Sharma", "ADMIN", "Sanitation", "anita@jh.gov.in", 132, 28),
    StaffRow("Ravi Kumar", "DEPT_HEAD", "Roads", "ravi@jh.gov.in", 98, 42),
    StaffRow("Sunil Das", "STAFF", "Roads", "sunil@jh.gov.in", 61, 39),
    StaffRow("Pooja Verma", "STAFF", "Sanitation", "pooja@jh.gov.in", 77, 31)]

  /** Each mock member's row: the department resolves and the stored
      statistics are shown, none defaulted to 0. */
  lemma MockRow(k: nat)
    requires k < 4
    ensures RowOf(MockData.Departments(), MockData.StaffMembers()[k]) == MockRows[k]
  {
    var ds := MockData.Departments();
    var ss := MockData.StaffMembers();
    MockDepartmentNames();
    if k == 0 {
      RowWithStats(ds, ss[0], "Sanitation");
    } else if k == 1 {
      RowWithStats(ds, ss[1], "Roads");
    } else if k == 2 {
      RowWithStats(ds, ss[2], "Roads");
    } else {
      RowWithStats(ds, ss[3], "Sanitation");
    }
  }

  /** The row of a member with statistics shows them as stored. */
  lemma RowWithStats(ds: seq<Department>, s: StaffMember, dept: string)
    requires s.stats.Some? && DepartmentCell(ds, s.departmentId) == dept
    ensures RowOf(ds, s) ==
      StaffRow(s.name, RoleName(s.role), dept, s.email, s.stats.value.resolved, s.stats.value.avgTimeHours)
  {
  }

  lemma MockDepartmentNames()
    ensures DepartmentCell(MockData.Departments(), "sanitation") == "Sanitation"
    ensures DepartmentCell(MockData.Departments(), "roads") == "Roads"
  {
    var ds := MockData.Departments();
    assert ds[0].id == "sanitation" && ds[0].name == "Sanitation";
    assert ds[1].id == "roads" && ds[1].name == "Roads";
  }

  /** With an empty search box the table has one row per staff member, in
      the staff list order. */
  lemma EmptyQueryTable(ds: seq<Department>, staff: seq<StaffMember>)
    ensures |StaffTable(ds, staff, "")| == |staff|
    ensures forall k :: 0 <= k < |staff| ==> StaffTable(ds, staff, "")[k] == RowOf(ds, staff[k])
  {
    EmptyQueryListsAll(staff);
  }

  /** The unfiltered mock table lists the four members with their stored
      statistics. */
  lemma MockStaffTable()
    ensures StaffTable(MockData.Departments(), MockData.StaffMembers(), "") == MockRows
  {
    var ds, ss := MockData.Departments(), MockData.StaffMembers();
    var rows := StaffTable(ds, ss, "");
    EmptyQueryTable(ds, ss);
    assert |rows| == |MockRows|;
    forall k | 0 <= k < 4
      ensures rows[k] == MockRows[k]
    {
      MockRow(k);
    }
  }

  /** In the mock store every staff member's Department cell is a real
      department name. */
  lemma MockDepartmentCellsResolve()
    ensures forall k :: 0 <= k < |MockData.StaffMembers()| ==>
      DepartmentCell(MockData.Departments(), MockData.StaffMembers()[k].departmentId) != ""
  {
  }
}
