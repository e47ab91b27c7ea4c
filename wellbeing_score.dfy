/** The financial well-being card (src/components/dashboard/WellBeingScore.tsx):
    the colour of the score, its label, the badge behind the label, and the
    month-on-month change row. */
module WellBeingScore {
  import opened Tone

  /** `getScoreColor()`. */
  function ScoreColor(score: real): (t: Tone)
    ensures t == Success <==> score >= 80.0
    ensures t == Warning <==> 60.0 <= score < 80.0
    ensures t == Destructive <==> score < 60.0
  {
    ToneOf(score)
  }

  datatype ScoreLabel = Excellent | Good | Fair | NeedsWork

  /** `getScoreLabel()`. */
  function Label(score: real): (l: ScoreLabel)
    ensures l == Excellent <==> score >= 80.0
    ensures l == Good <==> 60.0 <= score < 80.0
    ensures l == Fair <==> 40.0 <= score < 60.0
    ensures l == NeedsWork <==> score < 40.0
  {
    if score >= 80.0 then Excellent
    else if score >= 60.0 then Good
    else if score >= 40.0 then Fair
    else NeedsWork
  }

  /** The text the label shows. */
  function LabelText(l: ScoreLabel): string {
    match l
    case Excellent => "Excellent"
    case Good => "Good"
    case Fair => "Fair"
    case NeedsWork => "Needs Work"
  }

  /** Different labels show different texts. */
  lemma LabelTextDistinct(l1: ScoreLabel, l2: ScoreLabel)
    requires l1 != l2
    ensures LabelText(l1) != LabelText(l2)
  {
    assert LabelText(l1)[0] != LabelText(l2)[0];
  }

  /** Higher is better: Needs Work 0 up to Excellent 3. */
  function LabelRank(l: ScoreLabel): nat {
    match l
    case NeedsWork => 0
    case Fair => 1
    case Good => 2
    case Excellent => 3
  }

  /** A higher score never gets a worse label. */
  lemma LabelMonotone(x: real, y: real)
    requires x <= y
    ensures LabelRank(Label(x)) <= LabelRank(Label(y))
  {
  }

  /** The label refines the colour: Excellent is the success tier, Good the
      warning tier, and Fair and Needs Work split the destructive tier. */
  lemma LabelRefinesColor(score: real)
    ensures Label(score) == Excellent <==> ScoreColor(score) == Success
    ensures Label(score) == Good <==> ScoreColor(score) == Warning
    ensures Label(score) in {Fair, NeedsWork} <==> ScoreColor(score) == Destructive
  {
  }

  /** The class of the badge around the label, written out on its own in
      the page rather than through `getScoreColor()`. */
  function BadgeClass(score: real): string {
    if score >= 80.0 then "bg-success/10 text-success"
    else if score >= 60.0 then "bg-warning/10 text-warning"
    else "bg-destructive/10 text-destructive"
  }

  /** The badge shows, for every score, the background of the score's tier
      and the same text colour as the score itself. */
  lemma BadgeAgreesWithColor(score: real)
    ensures BadgeClass(score) == BackgroundClass(ScoreColor(score)) + " " + TextClass(ScoreColor(score))
  {
    var t := ScoreColor(score);
    if t == Success {
      assert BackgroundClass(t) + " " + TextClass(t) == "bg-success/10 text-success";
    } else if t == Warning {
      assert BackgroundClass(t) + " " + TextClass(t) == "bg-warning/10 text-warning";
    } else {
      assert BackgroundClass(t) + " " + TextClass(t) == "bg-destructive/10 text-destructive";
    }
  }

  /** The background class of a tier. */
  function BackgroundClass(t: Tone): string {
    match t
    case Success => "bg-success/10"
    case Warning => "bg-warning/10"
    case Destructive => "bg-destructive/10"
  }

  /** What the change row shows. `previousScore` defaults to 0 when the
      caller gives none. */
  datatype ChangeRow = Hidden | Up(points: real) | Down(points: real) | NoChange

  /** The change row: hidden unless there is a previous score above 0, then
      up, down or no change by the sign of `score - previousScore`. */
  function Change(score: real, previousScore: real): (r: ChangeRow)
    ensures r == Hidden <==> previousScore <= 0.0
    ensures r.Up? <==> previousScore > 0.0 && score > previousScore
    ensures r.Down? <==> previousScore > 0.0 && score < previousScore
    ensures r == NoChange <==> previousScore > 0.0 && score == previousScore
    ensures (r.Up? || r.Down?) ==> r.points == score - previousScore
  {
    var change := score - previousScore;
    if previousScore <= 0.0 then Hidden
    else if change > 0.0 then Up(change)
    else if change < 0.0 then Down(change)
    else NoChange
  }

  /** Swapping the two scores turns a rise into a fall of the same size. */
  lemma ChangeAntisymmetric(a: real, b: real)
    requires a > 0.0 && b > 0.0
    ensures Change(a, b).Up? <==> Change(b, a).Down?
    ensures Change(a, b).Up? ==> Change(a, b).points == -Change(b, a).points
    ensures Change(a, b) == NoChange <==> Change(b, a) == NoChange
  {
  }
}
