/** The dashboard's derived numbers: the status cards, the status bar
    chart, the by-category pie with its colour rotation, and the list of
    recent notifications. */
module Dashboard {
  import opened Domain
  import Seqs
  import Tally
  import IssueQuery
  import MockData

  function HasStatus(s: IssueStatus): Issue -> bool {
    (i: Issue) => i.status == s
  }

  /** `issues.filter(i => i.status === s).length`: the number of issues
      having status `s`. */
  function CountStatus(xs: seq<Issue>, s: IssueStatus): (n: nat)
    ensures n == multiset(Statuses(xs))[s]
  {
    Seqs.FilterLength(HasStatus(s), xs);
    CountWhereStatus(xs, s);
    |Seqs.Filter(HasStatus(s), xs)|
  }

  function Statuses(xs: seq<Issue>): (ss: seq<IssueStatus>)
    ensures |ss| == |xs| && forall k :: 0 <= k < |xs| ==> ss[k] == xs[k].status
  {
    seq(|xs|, k requires 0 <= k < |xs| => xs[k].status)
  }

  lemma {:induction false} CountWhereStatus(xs: seq<Issue>, s: IssueStatus)
    ensures Seqs.CountWhere(HasStatus(s), xs) == multiset(Statuses(xs))[s]
    decreases |xs|
  {
    if |xs| > 0 {
      CountWhereStatus(xs[1..], s);
      assert Statuses(xs) == [xs[0].status] + Statuses(xs[1..]);
    }
  }

  /** The four counters of the stat cards. */
  datatype Cards = Cards(total: nat, pending: nat, inProgress: nat, resolved: nat)

  /** The stat cards. The four statuses partition the issues: the total is
      the three card counts plus the CRITICAL issues, so the cards never add
      up past it. */
  function StatCards(xs: seq<Issue>): (c: Cards)
    ensures c.total == |xs|
    ensures c.total == c.pending + c.inProgress + c.resolved + CountStatus(xs, Critical)
    ensures c.pending + c.inProgress + c.resolved <= c.total
  {
    MultiplicitiesSum(Statuses(xs));
    Cards(|xs|, CountStatus(xs, Pending), CountStatus(xs, InProgress), CountStatus(xs, Resolved))
  }

  lemma {:induction false} MultiplicitiesSum(ss: seq<IssueStatus>)
    ensures multiset(ss)[Pending] + multiset(ss)[InProgress] + multiset(ss)[Resolved] + multiset(ss)[Critical] == |ss|
    decreases |ss|
  {
    if |ss| > 0 {
      MultiplicitiesSum(ss[1..]);
      assert ss == [ss[0]] + ss[1..];
      var m := multiset(ss[1..]);
      assert multiset(ss) == multiset{ss[0]} + m;
      match ss[0]
      case Pending => assert multiset(ss)[Pending] == m[Pending] + 1;
      case InProgress => assert multiset(ss)[InProgress] == m[InProgress] + 1;
      case Resolved => assert multiset(ss)[Resolved] == m[Resolved] + 1;
      case Critical => assert multiset(ss)[Critical] == m[Critical] + 1;
    }
  }

  // ---------------------------------------------------------------------
  // Status bar chart

  datatype Bar = Bar(name: string, value: nat)

  /** `barData`: Pending, In Progress and Resolved; CRITICAL is not charted. */
  function BarData(xs: seq<Issue>): (r: seq<Bar>)
    ensures |r| == 3
    ensures r[0].name == "Pending" && r[1].name == "In Progress" && r[2].name == "Resolved"
    ensures r[0].value == multiset(Statuses(xs))[Pending]
    ensures r[1].value == multiset(Statuses(xs))[InProgress]
    ensures r[2].value == multiset(Statuses(xs))[Resolved]
  {
    var c := StatCards(xs);
    [Bar("Pending", c.pending), Bar("In Progress", c.inProgress), Bar("Resolved", c.resolved)]
  }

  /** The bars add up to the total minus the CRITICAL issues. */
  lemma BarDataOmitsCritical(xs: seq<Issue>)
    ensures BarData(xs)[0].value + BarData(xs)[1].value + BarData(xs)[2].value ==
      |xs| - CountStatus(xs, Critical)
  {
  }

  // ---------------------------------------------------------------------
  // Category pie

  datatype Slice = Slice(name: string, value: nat)

  function SliceNames(ps: seq<Slice>): (ns: seq<string>)
    ensures |ns| == |ps| && forall k :: 0 <= k < |ps| ==> ns[k] == ps[k].name
  {
    seq(|ps|, k requires 0 <= k < |ps| => ps[k].name)
  }

  function SliceValues(ps: seq<Slice>): (vs: seq<nat>)
    ensures |vs| == |ps| && forall k :: 0 <= k < |ps| ==> vs[k] == ps[k].value
  {
    seq(|ps|, k requires 0 <= k < |ps| => ps[k].value)
  }

  /** `Object.entries(tally).map(([name, value]) => ({ name, value }))`. */
  function Slices(t: seq<Tally.Entry>): (ps: seq<Slice>)
    ensures |ps| == |t|
    ensures SliceNames(ps) == Tally.Keys(t) && SliceValues(ps) == Tally.Values(t)
  {
    Tally.KeysAt(t);
    seq(|t|, k requires 0 <= k < |t| => Slice(t[k].key, t[k].count))
  }

  /** `pieData`: one slice per category, named once each and in the order in
      which the categories first occur; each value is that category's number
      of issues, so at least 1; the values add up to the total. */
  function PieData(xs: seq<Issue>): (r: seq<Slice>)
    ensures SliceNames(r) == IssueQuery.CategoryOptions(xs)
    ensures Seqs.Distinct(SliceNames(r))
    ensures forall k :: 0 <= k < |r| ==>
      r[k].value == multiset(IssueQuery.Categories(xs))[r[k].name] && r[k].value >= 1
    ensures Seqs.Sum(SliceValues(r)) == |xs|
  {
    var t := Tally.CountBy(IssueQuery.Categories(xs));
    Tally.KeysAt(t);
    Slices(t)
  }

  /** `byCategory`: the value column of the same tally. */
  function ByCategory(xs: seq<Issue>): (r: seq<nat>)
    ensures r == SliceValues(PieData(xs))
  {
    Tally.Values(Tally.CountBy(IssueQuery.Categories(xs)))
  }

  const PieColors: seq<string> := [
    "hsl(var(--primary))",
    "hsl(var(--status-warning))",
    "hsl(var(--status-success))",
    "hsl(var(--status-critical))"
  ]

  /** `pieColors[idx % pieColors.length]`: always a palette entry. */
  function PieColor(idx: nat): (c: string)
    ensures c in PieColors
  {
    PieColors[idx % |PieColors|]
  }

  /** The colours repeat every four slices and neighbouring slices differ. */
  lemma PieColorRotation(idx: nat)
    ensures PieColor(idx + 4) == PieColor(idx)
    ensures PieColor(idx + 1) != PieColor(idx)
  {
  }

  // ---------------------------------------------------------------------
  // Recent notifications

  /** `notifications.slice(0, 6)`: the first at most six, in order. */
  function RecentNotifications(ns: seq<NotificationItem>): (r: seq<NotificationItem>)
    ensures |r| == if |ns| < 6 then |ns| else 6
    ensures r <= ns
  {
    if |ns| <= 6 then ns else ns[..6]
  }

  /** On the mock store the cards read total 3, pending 0, in progress 1
      and resolved 1. */
  lemma MockStatCards(now: Timestamp)
    ensures StatCards(MockData.Issues(now)) == Cards(3, 0, 1, 1)
  {
    var ss := [InProgress, Critical, Resolved];
    MockStatuses(now);
    assert multiset(ss) == multiset{InProgress, Critical, Resolved};
  }

  lemma MockStatuses(now: Timestamp)
    ensures Statuses(MockData.Issues(now)) == [InProgress, Critical, Resolved]
  {
  }

  /** On the mock store the pie has one slice per issue: Pothole, Garbage
      and Streetlight, in that order. */
  lemma MockPieNames(now: Timestamp)
    ensures SliceNames(PieData(MockData.Issues(now))) == ["Pothole", "Garbage", "Streetlight"]
  {
    var cats := IssueQuery.Categories(MockData.Issues(now));
    assert cats == ["Pothole", "Garbage", "Streetlight"];
    Seqs.DedupOfDistinct(cats);
  }
}
