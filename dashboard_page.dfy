/** The score badge of the dashboard's attempt list (client/src/pages/DashboardPage.tsx). */
module DashboardPage {
  import opened Types
  import ResultsPage

  /** `getScoreBadge` of the dashboard. */
  function ScoreBadge(percentage: real): (b: BadgeVariant)
    ensures percentage >= 90.0 ==> b == Success
    ensures 75.0 <= percentage < 90.0 ==> b == Info
    ensures 60.0 <= percentage < 75.0 ==> b == Warning
    ensures percentage < 60.0 ==> b == Danger
  {
    if percentage >= 90.0 then Success
    else if percentage >= 75.0 then Info
    else if percentage >= 60.0 then Warning
    else Danger
  }

  /** The dashboard and the results page badge every percentage alike, by the feedback tiers. */
  lemma SameBadgeAsResults(percentage: real)
    ensures ScoreBadge(percentage) == ResultsPage.ScoreBadge(percentage)
    ensures ScoreBadge(percentage) == ResultsPage.TierBadge(TierOf(percentage))
  {
  }
}
