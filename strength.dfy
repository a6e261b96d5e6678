/** The strength label the password-change handler shows for a score. */
module StrengthLabel {

  datatype Strength = Weak | Medium | Strong

  /** The band of a score: below 30 Weak, below 70 Medium, otherwise
      Strong. Every integer score has a band. */
  function BandOf(score: int): (s: Strength)
    ensures s == Weak <==> score < 30
    ensures s == Medium <==> 30 <= score < 70
    ensures s == Strong <==> score >= 70
  {
    if score < 30 then Weak
    else if score < 70 then Medium
    else Strong
  }

  function Rank(s: Strength): nat {
    match s
    case Weak => 0
    case Medium => 1
    case Strong => 2
  }

  /** The text set on the label. */
  function Label(s: Strength): string {
    match s
    case Weak => "Strength: Weak"
    case Medium => "Strength: Medium"
    case Strong => "Strength: Strong"
  }

  /** The label names the band: each of the three texts is set exactly for
      its range of scores. */
  lemma LabelText(score: int)
    ensures Label(BandOf(score)) == "Strength: Weak" <==> score < 30
    ensures Label(BandOf(score)) == "Strength: Medium" <==> 30 <= score < 70
    ensures Label(BandOf(score)) == "Strength: Strong" <==> score >= 70
  {
  }

  /** A higher score never gets a lower band. */
  lemma BandMonotone(low: int, high: int)
    requires low <= high
    ensures Rank(BandOf(low)) <= Rank(BandOf(high))
  {
  }

  /** The scores on either side of each threshold. */
  lemma BandBoundaries()
    ensures BandOf(29) == Weak && BandOf(30) == Medium
    ensures BandOf(69) == Medium && BandOf(70) == Strong
  {
  }
}
