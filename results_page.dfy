/**
 * The score colour and badge of the results page
 * (client/src/pages/ResultsPage.tsx). Percentages are reals.
 */
module ResultsPage {
  import opened Types

  /** `getScoreColor`: the text colour class for a percentage. */
  function ScoreColor(percentage: real): (c: string)
    ensures percentage >= 90.0 ==> c == "text-green-600"
    ensures 75.0 <= percentage < 90.0 ==> c == "text-blue-600"
    ensures 60.0 <= percentage < 75.0 ==> c == "text-yellow-600"
    ensures percentage < 60.0 ==> c == "text-red-600"
  {
    if percentage >= 90.0 then "text-green-600"
    else if percentage >= 75.0 then "text-blue-600"
    else if percentage >= 60.0 then "text-yellow-600"
    else "text-red-600"
  }

  /** `getScoreBadge`: the badge variant for a percentage. */
  function ScoreBadge(percentage: real): (b: BadgeVariant)
    ensures percentage >= 90.0 ==> b == Success
    ensures 75.0 <= percentage < 90.0 ==> b == Info
    ensures 60.0 <= percentage < 75.0 ==> b == Warning
    ensures percentage < 60.0 ==> b == Danger
  {
    if percentage >= 90.0 then Success
    else if percentage >= 75.0 then Info
    else if percentage >= 60.0 then Warning
    else Danger
  }

  /** The colour each feedback tier is shown in. */
  function TierColor(t: Tier): string {
    match t
    case Excellent => "text-green-600"
    case Good => "text-blue-600"
    case Average => "text-yellow-600"
    case NeedsImprovement => "text-red-600"
  }

  /** The badge each feedback tier is shown with. */
  function TierBadge(t: Tier): BadgeVariant {
    match t
    case Excellent => Success
    case Good => Info
    case Average => Warning
    case NeedsImprovement => Danger
  }

  /** Colour and badge always fall in the tier of the server's feedback message for the same percentage. */
  lemma ColorAndBadgeFollowTier(percentage: real)
    ensures ScoreColor(percentage) == TierColor(TierOf(percentage))
    ensures ScoreBadge(percentage) == TierBadge(TierOf(percentage))
  {
  }

  /** Tiers get distinct badges, so the badge tells the tier. */
  lemma TierBadgeInjective(t: Tier, t': Tier)
    ensures TierBadge(t) == TierBadge(t') <==> t == t'
  {
  }
}
