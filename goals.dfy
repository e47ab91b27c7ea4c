/** The Goals page (src/pages/Goals.tsx): the totals over all goals, the
    overall and per-goal percentages, the status badge label and the colour
    tier of a goal's success probability. */
module Goals {
  import opened JsNumber
  import opened Tone

  datatype Status = OnTrack | AtRisk | Ahead

  /** A goal without its icon. */
  datatype Goal = Goal(
    id: string, name: string, current: real, target: real, deadline: string,
    monthlyRequired: real, probability: real, color: string, status: Status)

  /** What `Math.round((part / whole) * 100)` shows: a whole number, or,
      when `whole` is 0, NaN (0 / 0) or an infinity (a non-zero part over 0). */
  datatype Shown = Whole(n: int) | NotANumber | Infinite(positive: bool)

  /** The rounded percentage `part` is of `whole`. The page does not guard
      against a zero `whole`. */
  function Percent(part: real, whole: real): (r: Shown)
    ensures whole != 0.0 ==>
      r.Whole? && r.n as real <= part / whole * 100.0 + 0.5 < r.n as real + 1.0
    ensures whole == 0.0 ==> (r == NotANumber <==> part == 0.0)
    ensures whole == 0.0 && part != 0.0 ==> r == Infinite(part > 0.0)
  {
    if whole != 0.0 then Whole(Round(part / whole * 100.0))
    else if part == 0.0 then NotANumber
    else Infinite(part > 0.0)
  }

  /** A part between none and all of a positive whole is shown as 0 to 100;
      none is 0 and all is 100. */
  lemma PercentBounds(part: real, whole: real)
    requires 0.0 <= part <= whole && whole > 0.0
    ensures Percent(part, whole).Whole?
    ensures 0 <= Percent(part, whole).n <= 100
    ensures part == 0.0 ==> Percent(part, whole).n == 0
    ensures part == whole ==> Percent(part, whole).n == 100
  {
    assert 0.0 <= part / whole <= 1.0;
    if part == whole {
      assert part / whole == 1.0;
    }
  }

  /** A larger part of the same positive whole never shows a smaller
      percentage. */
  lemma PercentMonotone(p1: real, p2: real, whole: real)
    requires p1 <= p2 && whole > 0.0
    ensures Percent(p1, whole).n <= Percent(p2, whole).n
  {
    assert p1 / whole <= p2 / whole;
    RoundMonotone(p1 / whole * 100.0, p2 / whole * 100.0);
  }

  /** `goals.reduce((sum, goal) => sum + goal.current, 0)`. */
  function TotalSaved(goals: seq<Goal>): real {
    if goals == [] then 0.0 else TotalSaved(goals[..|goals| - 1]) + goals[|goals| - 1].current
  }

  /** `goals.reduce((sum, goal) => sum + goal.target, 0)`. */
  function TotalTarget(goals: seq<Goal>): real {
    if goals == [] then 0.0 else TotalTarget(goals[..|goals| - 1]) + goals[|goals| - 1].target
  }

  /** Every goal is somewhere between nothing saved and its target reached. */
  predicate InRange(goals: seq<Goal>) {
    forall i :: 0 <= i < |goals| ==> 0.0 <= goals[i].current <= goals[i].target
  }

  /** Every goal has reached its target. */
  predicate AllReached(goals: seq<Goal>) {
    forall i :: 0 <= i < |goals| ==> goals[i].current == goals[i].target
  }

  /** Within-range goals add up to a within-range total, and the total
      saved reaches the total target only when every goal is reached. */
  lemma {:induction false} TotalsInRange(goals: seq<Goal>)
    requires InRange(goals)
    ensures 0.0 <= TotalSaved(goals) <= TotalTarget(goals)
    ensures TotalSaved(goals) == TotalTarget(goals) <==> AllReached(goals)
  {
    if goals != [] {
      var init := goals[..|goals| - 1];
      assert forall i :: 0 <= i < |init| ==> init[i] == goals[i];
      TotalsInRange(init);
    }
  }

  /** `Math.round((totalSaved / totalTarget) * 100)`. With within-range
      goals and a positive total target the overall progress is 0 to 100,
      and 100 when every goal is reached; nothing saved of a zero total
      target shows NaN. */
  function OverallPercent(goals: seq<Goal>): (r: Shown)
    ensures InRange(goals) && TotalTarget(goals) > 0.0 ==> r.Whole? && 0 <= r.n <= 100
    ensures InRange(goals) && TotalTarget(goals) > 0.0 && AllReached(goals) ==> r == Whole(100)
    ensures TotalSaved(goals) == 0.0 && TotalTarget(goals) == 0.0 ==> r == NotANumber
  {
    if InRange(goals) && TotalTarget(goals) > 0.0 then
      TotalsInRange(goals);
      PercentBounds(TotalSaved(goals), TotalTarget(goals));
      Percent(TotalSaved(goals), TotalTarget(goals))
    else
      Percent(TotalSaved(goals), TotalTarget(goals))
  }

  /** `Math.round((goal.current / goal.target) * 100)`. */
  function GoalPercent(g: Goal): (r: Shown)
    ensures 0.0 <= g.current <= g.target && g.target > 0.0 ==> r.Whole? && 0 <= r.n <= 100
    ensures g.current == g.target && g.target > 0.0 ==> r == Whole(100)
    ensures g.target == 0.0 ==> (r == NotANumber <==> g.current == 0.0)
  {
    if 0.0 <= g.current <= g.target && g.target > 0.0 then
      PercentBounds(g.current, g.target);
      Percent(g.current, g.target)
    else
      Percent(g.current, g.target)
  }

  /** The badge text of a status. */
  function StatusLabel(s: Status): (badge: string)
    ensures badge == "Ahead" <==> s == Ahead
    ensures badge == "On Track" <==> s == OnTrack
    ensures badge == "At Risk" <==> s == AtRisk
  {
    match s
    case Ahead => "Ahead"
    case OnTrack => "On Track"
    case AtRisk => "At Risk"
  }

  /** The colour tier of a goal's probability. */
  function ProbabilityTone(g: Goal): (t: Tone)
    ensures t == Success <==> g.probability >= 80.0
    ensures t == Warning <==> 60.0 <= g.probability < 80.0
    ensures t == Destructive <==> g.probability < 60.0
  {
    ToneOf(g.probability)
  }

  /** The five goals the page shows. */
  const FixedGoals: seq<Goal> := [
    Goal("1", "Emergency Fund", 150000.0, 200000.0, "Dec 2024", 8334.0, 92.0, "hsl(142, 70%, 40%)", Ahead),
    Goal("2", "New Car", 280000.0, 800000.0, "Jun 2025", 43334.0, 65.0, "hsl(25, 50%, 35%)", AtRisk),
    Goal("3", "Vacation to Europe", 45000.0, 100000.0, "Mar 2025", 6875.0, 88.0, "hsl(38, 90%, 50%)", OnTrack),
    Goal("4", "Home Down Payment", 500000.0, 2000000.0, "Dec 2026", 50000.0, 72.0, "hsl(35, 60%, 45%)", OnTrack),
    Goal("5", "MBA Fund", 100000.0, 500000.0, "Aug 2025", 28572.0, 78.0, "hsl(30, 40%, 55%)", OnTrack)
  ]

  /** For the page's goals: 10,75,000 saved of 36,00,000, shown as 30%. */
  lemma FixedGoalsOverall()
    ensures TotalSaved(FixedGoals) == 1075000.0
    ensures TotalTarget(FixedGoals) == 3600000.0
    ensures OverallPercent(FixedGoals) == Whole(30)
  {
    var g := FixedGoals;
    assert g[..5] == g;
    assert g[..1][..0] == [] && g[..2][..1] == g[..1] && g[..3][..2] == g[..2];
    assert g[..4][..3] == g[..3] && g[..5][..4] == g[..4];
    assert TotalSaved(g[..1]) == 150000.0 && TotalTarget(g[..1]) == 200000.0;
    assert TotalSaved(g[..2]) == 430000.0 && TotalTarget(g[..2]) == 1000000.0;
    assert TotalSaved(g[..3]) == 475000.0 && TotalTarget(g[..3]) == 1100000.0;
    assert TotalSaved(g[..4]) == 975000.0 && TotalTarget(g[..4]) == 3100000.0;
  }

  /** For the page's goals: 75%, 35%, 45%, 25% and 20%. */
  lemma FixedGoalPercents()
    ensures GoalPercent(FixedGoals[0]) == Whole(75)
    ensures GoalPercent(FixedGoals[1]) == Whole(35)
    ensures GoalPercent(FixedGoals[2]) == Whole(45)
    ensures GoalPercent(FixedGoals[3]) == Whole(25)
    ensures GoalPercent(FixedGoals[4]) == Whole(20)
  {
  }
}
