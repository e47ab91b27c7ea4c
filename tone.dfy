/** The three-way colour tier shared by the goal probability (src/pages/Goals.tsx)
    and the well-being score (src/components/dashboard/WellBeingScore.tsx):
    80 and above is success, 60 and above is warning, below that destructive. */
module Tone {
  datatype Tone = Success | Warning | Destructive

  /** The tier of a value. */
  function ToneOf(x: real): (t: Tone)
    ensures t == Success <==> x >= 80.0
    ensures t == Warning <==> 60.0 <= x < 80.0
    ensures t == Destructive <==> x < 60.0
  {
    if x >= 80.0 then Success else if x >= 60.0 then Warning else Destructive
  }

  /** Higher is better: destructive 0, warning 1, success 2. */
  function ToneRank(t: Tone): nat {
    match t
    case Destructive => 0
    case Warning => 1
    case Success => 2
  }

  /** A higher value never gets a worse tier. */
  lemma ToneMonotone(x: real, y: real)
    requires x <= y
    ensures ToneRank(ToneOf(x)) <= ToneRank(ToneOf(y))
  {
  }

  /** The text colour class of a tier. */
  function TextClass(t: Tone): (s: string)
    ensures |s| > 5 && s[..5] == "text-"
  {
    match t
    case Success => "text-success"
    case Warning => "text-warning"
    case Destructive => "text-destructive"
  }
}
