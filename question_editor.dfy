/** The difficulty badge of the question editor (client/src/components/QuestionEditor.tsx). */
module QuestionEditor {
  import opened Types
  import QuizList

  /** `getDifficultyColor` of the question editor. */
  function DifficultyColor(difficulty: string): (b: BadgeVariant)
    ensures difficulty == "beginner" ==> b == Success
    ensures difficulty == "intermediate" ==> b == Warning
    ensures difficulty == "advanced" ==> b == Danger
    ensures b == Default <==> difficulty !in {"beginner", "intermediate", "advanced"}
  {
    match difficulty
    case "beginner" => Success
    case "intermediate" => Warning
    case "advanced" => Danger
    case _ => Default
  }

  /** The question editor colours every difficulty as the quiz list does. */
  lemma SameAsQuizList(difficulty: string)
    ensures DifficultyColor(difficulty) == QuizList.DifficultyColor(difficulty)
  {
  }
}
