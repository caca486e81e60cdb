/** The difficulty badge of a category's quiz list (client/src/pages/CategoryPage.tsx). */
module CategoryPage {
  import opened Types
  import QuizList

  /** `getDifficultyColor` of the category page. */
  function DifficultyColor(difficulty: string): (b: BadgeVariant)
    ensures difficulty == "beginner" ==> b == Success
    ensures difficulty == "intermediate" ==> b == Warning
    ensures difficulty == "advanced" ==> b == Danger
    ensures b == Default <==> difficulty !in {"beginner", "intermediate", "advanced"}
  {
    match difficulty
    case "beginner" => Success
    case "intermediate" => Warning
    case "advanced" => Danger
    case _ => Default
  }

  /** The category page colours every difficulty as the quiz list does. */
  lemma SameAsQuizList(difficulty: string)
    ensures DifficultyColor(difficulty) == QuizList.DifficultyColor(difficulty)
  {
  }
}
