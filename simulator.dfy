/** The savings simulator page (src/pages/Simulator.tsx): the year-by-year
    projection of the current and the improved (+50%) saving plans, the
    current savings taken from the stored transactions, and the two future
    values the page compares. The persona and the savings-change notice the
    page shows come from module AiSimulator. */
module Simulator {
  import opened Text
  import opened JsNumber

  /** What one year of saving adds: twelve months at 8% growth. */
  function YearlyStep(monthlySavings: real): real {
    monthlySavings * 12.0 * 1.08
  }

  /** The unrounded value of a plan after `year` years: the running total
      the projection keeps. */
  function ValueAt(start: real, monthlySavings: real, year: nat): (value: real)
    ensures monthlySavings >= 0.0 ==> value >= start
    ensures monthlySavings <= 0.0 ==> value <= start
  {
    if year == 0 then start else ValueAt(start, monthlySavings, year - 1) + YearlyStep(monthlySavings)
  }

  /** After `year` years a plan has grown by `year` yearly steps. */
  lemma {:induction false} ValueClosedForm(start: real, monthlySavings: real, year: nat)
    ensures ValueAt(start, monthlySavings, year) == start + year as real * YearlyStep(monthlySavings)
  {
    if year > 0 {
      ValueClosedForm(start, monthlySavings, year - 1);
      StepMore((year - 1) as real, YearlyStep(monthlySavings));
    }
  }

  lemma StepMore(n: real, step: real)
    ensures (n + 1.0) * step == n * step + step
  {
  }

  /** One point of the chart. */
  datatype ProjectionPoint = ProjectionPoint(year: string, current: int, improved: int)

  /** The point for `year`: the rounded values of the plan as it is and of
      the plan saving half as much again each month. */
  function PointAt(currentSavings: real, monthlySavings: real, year: nat): ProjectionPoint {
    ProjectionPoint(
      "Year " + NatToString(year),
      Round(ValueAt(currentSavings, monthlySavings, year)),
      Round(ValueAt(currentSavings, monthlySavings * 1.5, year)))
  }

  /** The first `n` points. */
  function Points(currentSavings: real, monthlySavings: real, n: nat): (data: seq<ProjectionPoint>)
    ensures |data| == n
    ensures forall y :: 0 <= y < n ==> data[y] == PointAt(currentSavings, monthlySavings, y)
  {
    seq(n, y requires 0 <= y => PointAt(currentSavings, monthlySavings, y))
  }

  /** How many points a projection over `years` years has: year 0 up to
      year `years`, none for a negative count. */
  function PointCount(years: int): nat {
    if years >= 0 then years + 1 else 0
  }

  /** `generateProjection(currentSavings, monthlySavings, years)`: a running
      total per plan, rounded into a point before each year's step. */
  method GenerateProjection(currentSavings: real, monthlySavings: real, years: int)
    returns (data: seq<ProjectionPoint>)
    ensures data == Points(currentSavings, monthlySavings, PointCount(years))
  {
    data := [];
    var current := currentSavings;
    var improved := currentSavings;
    var improvedSavings := monthlySavings * 1.5;
    var year := 0;
    while year <= years
      invariant 0 <= year <= PointCount(years)
      invariant current == ValueAt(currentSavings, monthlySavings, year)
      invariant improved == ValueAt(currentSavings, improvedSavings, year)
      invariant data == Points(currentSavings, monthlySavings, year)
      decreases years - year
    {
      data := data + [ProjectionPoint("Year " + NatToString(year), Round(current), Round(improved))];
      current := current + monthlySavings * 12.0 * 1.08;
      improved := improved + improvedSavings * 12.0 * 1.08;
      year := year + 1;
    }
  }

  /** A projection has one point per year from 0 to `years`, labelled
      "Year 0" onwards, and both plans start at the rounded current savings. */
  lemma ProjectionShape(currentSavings: real, monthlySavings: real, years: int)
    requires years >= 0
    ensures |Points(currentSavings, monthlySavings, PointCount(years))| == years + 1
    ensures forall y :: 0 <= y <= years ==>
      Points(currentSavings, monthlySavings, PointCount(years))[y].year == "Year " + NatToString(y)
    ensures Points(currentSavings, monthlySavings, PointCount(years))[0].current == Round(currentSavings)
    ensures Points(currentSavings, monthlySavings, PointCount(years))[0].improved == Round(currentSavings)
  {
  }

  /** The improved plan's yearly step is one and a half times the current
      plan's. */
  lemma ImprovedStep(monthlySavings: real)
    ensures YearlyStep(monthlySavings * 1.5) == 1.5 * YearlyStep(monthlySavings)
  {
  }

  /** Saving a non-negative amount, the improved plan is never below the
      current one, in any year; saving a negative amount, never above it. */
  lemma {:induction false} ValueImprovedVersusCurrent(start: real, monthlySavings: real, year: nat)
    ensures monthlySavings >= 0.0 ==> ValueAt(start, monthlySavings * 1.5, year) >= ValueAt(start, monthlySavings, year)
    ensures monthlySavings <= 0.0 ==> ValueAt(start, monthlySavings * 1.5, year) <= ValueAt(start, monthlySavings, year)
  {
    if year > 0 {
      ValueImprovedVersusCurrent(start, monthlySavings, year - 1);
    }
  }

  /** The same for the rounded chart points. */
  lemma ImprovedVersusCurrent(currentSavings: real, monthlySavings: real, year: nat)
    ensures monthlySavings >= 0.0 ==>
      PointAt(currentSavings, monthlySavings, year).improved >= PointAt(currentSavings, monthlySavings, year).current
    ensures monthlySavings <= 0.0 ==>
      PointAt(currentSavings, monthlySavings, year).improved <= PointAt(currentSavings, monthlySavings, year).current
  {
    var current := ValueAt(currentSavings, monthlySavings, year);
    var improved := ValueAt(currentSavings, monthlySavings * 1.5, year);
    ValueImprovedVersusCurrent(currentSavings, monthlySavings, year);
    if monthlySavings >= 0.0 {
      RoundMonotone(current, improved);
    } else {
      RoundMonotone(improved, current);
    }
  }

  /** `txns.reduce((sum, tx) => sum + Number(tx.amount || 0), 0)` over the
      stored amounts (income positive, expenses negative). */
  function NetSavings(amounts: seq<Num>): real {
    if amounts == [] then 0.0 else NetSavings(amounts[..|amounts| - 1]) + OrZero(amounts[|amounts| - 1])
  }

  /** Amounts stored as NaN or 0 add nothing to the net savings. */
  lemma {:induction false} NetSavingsIgnoresFalsy(amounts: seq<Num>)
    requires forall i :: 0 <= i < |amounts| ==> !Truthy(amounts[i])
    ensures NetSavings(amounts) == 0.0
  {
    if amounts != [] {
      NetSavingsIgnoresFalsy(amounts[..|amounts| - 1]);
    }
  }

  /** `Math.max(netSavings, 0)`. */
  function CurrentSavings(amounts: seq<Num>): (r: real)
    ensures r >= 0.0 && r >= NetSavings(amounts)
    ensures r == NetSavings(amounts) || r == 0.0
  {
    if NetSavings(amounts) > 0.0 then NetSavings(amounts) else 0.0
  }

  /** An amount stored as NaN or 0 adds nothing, and an income never lowers
      the current savings. */
  lemma CurrentSavingsStep(amounts: seq<Num>, a: Num)
    ensures !Truthy(a) ==> CurrentSavings(amounts + [a]) == CurrentSavings(amounts)
    ensures a.Finite? && a.value > 0.0 ==> CurrentSavings(amounts + [a]) >= CurrentSavings(amounts)
  {
    assert (amounts + [a])[..|amounts|] == amounts;
  }

  /** Net savings add up over a concatenation. */
  lemma {:induction false} NetSavingsAppend(s: seq<Num>, t: seq<Num>)
    ensures NetSavings(s + t) == NetSavings(s) + NetSavings(t)
  {
    if t == [] {
      assert s + t == s;
    } else {
      var init := t[..|t| - 1];
      assert (s + t)[..|s + t| - 1] == s + init;
      assert (s + t)[|s + t| - 1] == t[|t| - 1];
      NetSavingsAppend(s, init);
    }
  }

  /** The values the page compares: the last point of each plan (`|| 0` on
      a missing point) and the gap between them. */
  datatype Outlook = Outlook(currentFuture: int, improvedFuture: int, difference: int)

  function OutlookOf(data: seq<ProjectionPoint>): (o: Outlook)
    ensures data == [] ==> o == Outlook(0, 0, 0)
    ensures o.difference == o.improvedFuture - o.currentFuture
  {
    if data == [] then Outlook(0, 0, 0)
    else
      var last := data[|data| - 1];
      Outlook(last.current, last.improved, last.improved - last.current)
  }

  /** The page's ten-year outlook: the current plan ends at the rounded
      value after ten yearly steps, and the improved plan gains on it by a
      non-negative difference whenever the monthly saving is not negative. */
  lemma TenYearOutlook(currentSavings: real, monthlySavings: real)
    ensures OutlookOf(Points(currentSavings, monthlySavings, PointCount(10))).currentFuture ==
      Round(currentSavings + 10.0 * YearlyStep(monthlySavings))
    ensures OutlookOf(Points(currentSavings, monthlySavings, PointCount(10))).improvedFuture ==
      Round(currentSavings + 10.0 * YearlyStep(monthlySavings * 1.5))
    ensures monthlySavings >= 0.0 ==>
      OutlookOf(Points(currentSavings, monthlySavings, PointCount(10))).difference >= 0
  {
    ImprovedVersusCurrent(currentSavings, monthlySavings, 10);
    ValueClosedForm(currentSavings, monthlySavings, 10);
    ValueClosedForm(currentSavings, monthlySavings * 1.5, 10);
  }
}
