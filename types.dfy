/**
 * The records and constants the client and the server share
 * (shared/src/types.ts and shared/src/constants.ts), transcribed as data.
 */
module Types {
  import opened Common

  type Id = string

  datatype Role = QuizTaker | QuizManager

  /** The variants of the client's Badge component. */
  datatype BadgeVariant = Default | Success | Warning | Danger | Info

  datatype User = User(id: Id, username: string, role: Role, tokenVersion: int, createdAt: int)

  datatype Category = Category(id: Id, name: string, description: string, icon: string)

  datatype Quiz = Quiz(id: Id, categoryId: Id, title: string, description: string, difficulty: string)

  datatype QuestionOption = QuestionOption(id: string, text: string, explanation: Option<string>)

  datatype Question = Question(
    id: Id, quizId: Id, question: string, difficulty: Option<string>,
    options: seq<QuestionOption>, correctAnswer: string, explanation: string, order: int)

  /** A quiz attempt row; `completedAt` is null until the attempt is completed. */
  datatype Attempt = Attempt(
    id: Id, userId: Id, quizId: Id, score: int, percentage: real,
    startedAt: int, completedAt: Option<int>)

  /** An attempt together with the category of its quiz (`include: { quiz: { include: { category } } }`). */
  datatype AttemptWithCategory = AttemptWithCategory(attempt: Attempt, category: Category)

  datatype AnswerRow = AnswerRow(attemptId: Id, questionId: Id, userAnswer: string, isCorrect: bool)

  datatype SubmitAnswer = SubmitAnswer(questionId: Id, userAnswer: string)

  /**
   * The message an AppError carries: an entry of ERROR_MESSAGES or a literal,
   * or `undefined`, which is what reading a key the table does not define
   * gives. A response built from `undefined` has no `error` text.
   */
  datatype Message = Text(text: string) | Undefined

  // Keys the server reads from ERROR_MESSAGES although the table does not
  // define them: each one reads as `undefined`.
  const MissingAuthToken: Message := Undefined
  const InvalidAuthToken: Message := Undefined
  const InsufficientPermissions: Message := Undefined
  const RateLimitExceeded: Message := Undefined

  // ERROR_MESSAGES
  const UserNotFound := "User not found"
  const QuizNotFound := "Quiz not found"
  const CategoryNotFound := "Category not found"
  const AttemptNotFound := "Quiz attempt not found"
  const AttemptAlreadyCompleted := "Quiz attempt already completed"
  const ServerError := "Internal server error"
  const UsernameTooShort := "Username must be at least 4 characters long"
  const UsernameTooLong := "Username cannot exceed 40 characters"
  const UsernameInvalidFormat := "Username must contain only letters, numbers, and special characters (@, -, _, .)"
  const UsernameAlreadyExists := "Username already exists"

  // PERFORMANCE_THRESHOLDS
  const ExcellentThreshold: real := 90.0
  const GoodThreshold: real := 75.0
  const AverageThreshold: real := 60.0

  // PERFORMANCE_MESSAGES
  const ExcellentMessage := "Excellent work! You have a strong understanding of this topic."
  const GoodMessage := "Good job! You have a solid grasp of the material."
  const AverageMessage := "Not bad! Keep practicing to improve your understanding."
  const NeedsImprovementMessage := "Keep studying! Review the material and try again."

  // USERNAME_VALIDATION
  const UsernameMinLength := 4
  const UsernameMaxLength := 40

  /** A character of USERNAME_VALIDATION.PATTERN's class `[a-zA-Z0-9@._-]`. */
  predicate UsernameChar(c: char) {
    IsAsciiAlnum(c) || c == '@' || c == '.' || c == '_' || c == '-'
  }

  /**
   * The quizzes of category `c`, in their original order: the server's
   * `where: { categoryId }` and the client's `quizzes.filter(...)`.
   */
  function InCategory(quizzes: seq<Quiz>, c: Id): (r: seq<Quiz>)
    ensures |r| <= |quizzes|
    ensures forall q :: q in r <==> q in quizzes && q.categoryId == c
  {
    if quizzes == [] then []
    else
      var init := quizzes[..|quizzes| - 1];
      var last := quizzes[|quizzes| - 1];
      assert forall q :: q in quizzes <==> q in init || q == last;
      InCategory(init, c) + (if last.categoryId == c then [last] else [])
  }

  /** Filtering keeps the order: the filter of a concatenation is the concatenation of the filters. */
  lemma {:induction false} InCategoryConcat(a: seq<Quiz>, b: seq<Quiz>, c: Id)
    ensures InCategory(a + b, c) == InCategory(a, c) + InCategory(b, c)
  {
    if b != [] {
      var init := b[..|b| - 1];
      assert (a + b)[..|a + b| - 1] == a + init;
      InCategoryConcat(a, init, c);
    } else {
      assert a + b == a;
    }
  }

  /** Filtering twice by the same category is filtering once. */
  lemma {:induction false} InCategoryIdempotent(quizzes: seq<Quiz>, c: Id)
    ensures InCategory(InCategory(quizzes, c), c) == InCategory(quizzes, c)
  {
    if quizzes != [] {
      var init := quizzes[..|quizzes| - 1];
      var last := quizzes[|quizzes| - 1];
      InCategoryIdempotent(init, c);
      var tail := if last.categoryId == c then [last] else [];
      InCategoryConcat(InCategory(init, c), tail, c);
      assert InCategory(tail, c) == tail by {
        if tail != [] { assert tail[..0] == []; }
      }
    }
  }

  /** `categoryId ? filter : all`: the filter applies only when a non-empty category id is given. */
  function ByCategoryFilter(quizzes: seq<Quiz>, categoryId: Option<Id>): (r: seq<Quiz>)
    ensures !SomeTruthy(categoryId) ==> r == quizzes
    ensures SomeTruthy(categoryId) ==> forall q :: q in r <==> q in quizzes && q.categoryId == categoryId.value
  {
    if SomeTruthy(categoryId) then InCategory(quizzes, categoryId.value) else quizzes
  }

  /** The score tiers shared by the feedback message and the result badges. */
  datatype Tier = Excellent | Good | Average | NeedsImprovement

  function TierOf(percentage: real): (t: Tier)
    ensures t == Excellent <==> percentage >= ExcellentThreshold
    ensures t == Good <==> GoodThreshold <= percentage < ExcellentThreshold
    ensures t == Average <==> AverageThreshold <= percentage < GoodThreshold
    ensures t == NeedsImprovement <==> percentage < AverageThreshold
  {
    if percentage >= 90.0 then Excellent
    else if percentage >= 75.0 then Good
    else if percentage >= 60.0 then Average
    else NeedsImprovement
  }
}
