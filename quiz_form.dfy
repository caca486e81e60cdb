/** The manager's quiz form (client/src/components/QuizForm.tsx). */
module QuizForm {
  import opened Common
  import opened Types

  const TitleRequired := "Quiz title is required"
  const SelectCategory := "Please select a category"
  const SaveFailed := "Failed to save quiz"

  /** The client-side checks of `handleSubmit`: a title always, a category only when creating. */
  function ValidateForm(creating: bool, title: string, categoryId: string): (r: Option<string>)
    ensures r == None <==> Trim(title) != "" && (creating ==> categoryId != "")
    ensures Trim(title) == "" ==> r == Some(TitleRequired)
    ensures Trim(title) != "" && creating && categoryId == "" ==> r == Some(SelectCategory)
  {
    if Trim(title) == "" then Some(TitleRequired)
    else if creating && categoryId == "" then Some(SelectCategory)
    else None
  }

  /** The create or update body; only a create carries `categoryId`. */
  datatype QuizPayload = QuizPayload(title: string, description: Option<string>, categoryId: Option<Id>, difficulty: string)

  function BuildPayload(creating: bool, title: string, description: string, categoryId: Id, difficulty: string): (p: QuizPayload)
    ensures p.categoryId.Some? <==> creating
    ensures creating ==> p.categoryId == Some(categoryId)
    ensures p.title == Trim(title) && p.difficulty == difficulty
    ensures p.description.None? <==> Trim(description) == ""
    ensures p.description.Some? ==> p.description.value == Trim(description)
  {
    QuizPayload(Trim(title), if Trim(description) == "" then None else Some(Trim(description)),
      if creating then Some(categoryId) else None, difficulty)
  }

  /** Editing can never move a quiz to another category: the update body has no category at all. */
  lemma UpdateKeepsCategory(title: string, description: string, categoryId: Id, categoryId': Id, difficulty: string)
    ensures BuildPayload(false, title, description, categoryId, difficulty) ==
      BuildPayload(false, title, description, categoryId', difficulty)
  {
  }

  class QuizFormState {
    /** The `quiz` prop: the quiz being edited, or none when creating. */
    const quiz: Option<Quiz>
    var title: string
    var description: string
    var categoryId: string
    var difficulty: string
    var error: Option<string>
    var success: bool

    /** The initial state: `quiz?.x || fallback` for each field. */
    constructor (quiz: Option<Quiz>, defaultCategoryId: Option<Id>)
      ensures this.quiz == quiz
      ensures quiz.Some? ==> title == quiz.value.title && description == quiz.value.description
      ensures quiz.None? ==> title == "" && description == ""
      ensures quiz.Some? && quiz.value.categoryId != "" ==> categoryId == quiz.value.categoryId
      ensures (quiz.None? || quiz.value.categoryId == "") ==> categoryId == OrElse(defaultCategoryId, "")
      ensures quiz.Some? && quiz.value.difficulty != "" ==> difficulty == quiz.value.difficulty
      ensures (quiz.None? || quiz.value.difficulty == "") ==> difficulty == "beginner"
      ensures error == None && !success
    {
      this.quiz := quiz;
      var fromQuiz := quiz.Some? && quiz.value.categoryId != "";
      title := if quiz.Some? then quiz.value.title else "";
      description := if quiz.Some? then quiz.value.description else "";
      categoryId := if fromQuiz then quiz.value.categoryId else OrElse(defaultCategoryId, "");
      difficulty := if quiz.Some? && quiz.value.difficulty != "" then quiz.value.difficulty else "beginner";
      error, success := None, false;
    }

    /** The effect that runs when a `quiz` prop is present: its fields, copied as they are. */
    method SyncFromQuiz()
      modifies this`title, this`description, this`categoryId, this`difficulty
      ensures quiz.Some? ==>
        title == quiz.value.title && description == quiz.value.description &&
        categoryId == quiz.value.categoryId && difficulty == quiz.value.difficulty
      ensures quiz.None? ==>
        title == old(title) && description == old(description) &&
        categoryId == old(categoryId) && difficulty == old(difficulty)
    {
      if quiz.Some? {
        title, description := quiz.value.title, quiz.value.description;
        categoryId, difficulty := quiz.value.categoryId, quiz.value.difficulty;
      }
    }

    /** `handleSubmit`; a successful create clears the fields except the category. */
    method HandleSubmit(outcome: SubmitOutcome) returns (sent: Option<QuizPayload>)
      modifies this`title, this`description, this`difficulty, this`error, this`success
      ensures var failure := ValidateForm(quiz.None?, old(title), categoryId);
        (failure.Some? ==> sent == None && error == failure) &&
        (failure.None? ==> sent == Some(BuildPayload(quiz.None?, old(title), old(description), categoryId, old(difficulty))))
      ensures sent.Some? && outcome.Rejected? ==> error == Some(RejectionText(outcome.responseError, outcome.message, SaveFailed))
      ensures sent.Some? && outcome.Saved? ==> error == None
      ensures success <==> sent.Some? && outcome.Saved?
      ensures sent.Some? && outcome.Saved? && quiz.None? ==> title == "" && description == "" && difficulty == "beginner"
      ensures !(sent.Some? && outcome.Saved? && quiz.None?) ==>
        title == old(title) && description == old(description) && difficulty == old(difficulty)
    {
      error, success := None, false;
      var failure := ValidateForm(quiz.None?, title, categoryId);
      if failure.Some? {
        error := failure;
        return None;
      }
      sent := Some(BuildPayload(quiz.None?, title, description, categoryId, difficulty));
      match outcome {
        case Saved =>
          success := true;
          if quiz.None? {
            title, description, difficulty := "", "", "beginner";
          }
        case Rejected(responseError, message) =>
          error := Some(RejectionText(responseError, message, SaveFailed));
      }
    }
  }
}
