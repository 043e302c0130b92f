/** The analytics page's derived values: the category pie, which is the
    same first-seen-order tally as the dashboard's, and the width of a
    heat bar. */
module Analytics {
  import opened Domain
  import Seqs
  import Tally
  import IssueQuery
  import Dashboard

  /** `categories`: the tally of issue categories as named slices, each
      category once in first-seen order, values adding up to the total. */
  function CategoryChart(xs: seq<Issue>): (r: seq<Dashboard.Slice>)
    ensures Dashboard.SliceNames(r) == IssueQuery.CategoryOptions(xs)
    ensures forall k :: 0 <= k < |r| ==> r[k].value == multiset(IssueQuery.Categories(xs))[r[k].name]
    ensures Seqs.Sum(Dashboard.SliceValues(r)) == |xs|
  {
    var t := Tally.CountBy(IssueQuery.Categories(xs));
    Tally.KeysAt(t);
    Dashboard.Slices(t)
  }

  /** The analytics pie and the dashboard pie are the same data. */
  lemma CategoryChartIsDashboardPie(xs: seq<Issue>)
    ensures CategoryChart(xs) == Dashboard.PieData(xs)
  {
  }

  /** `Math.min(100, count * 5)`: five percent per issue, capped at 100. */
  function HeatWidth(count: int): (w: int)
    ensures w <= 100
    ensures count <= 20 ==> w == count * 5
    ensures count >= 20 ==> w == 100
  {
    if count * 5 < 100 then count * 5 else 100
  }

  /** More issues never give a narrower bar. */
  lemma HeatWidthMonotone(a: int, b: int)
    requires a <= b
    ensures HeatWidth(a) <= HeatWidth(b)
  {
  }
}
