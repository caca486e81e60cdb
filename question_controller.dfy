/**
 * Creating, reading, updating and deleting questions
 * (server/src/controllers/questionController.ts). A stored question keeps
 * its options as a list; the JSON text the database column holds is not
 * modelled.
 */
module QuestionController {
  import opened Common
  import opened Types
  import opened ErrorHandler
  import Store

  const QuestionNotFound := "Question not found"
  const CorrectAnswerNotAnOption := "Correct answer must match one of the option IDs"
  const QuestionDeleted := "Question deleted successfully"

  /** `options.map(opt => opt.id)` */
  function OptionIds(options: seq<QuestionOption>): (ids: seq<string>)
    ensures |ids| == |options| && forall i :: 0 <= i < |options| ==> ids[i] == options[i].id
  {
    seq(|options|, i requires 0 <= i < |options| => options[i].id)
  }

  /** `optionIds.includes(answer)`: some option carries that id. */
  lemma OptionIdsMembership(options: seq<QuestionOption>, answer: string)
    ensures answer in OptionIds(options) <==> exists i :: 0 <= i < |options| && options[i].id == answer
  {
    var ids := OptionIds(options);
    if answer in ids {
      var i :| 0 <= i < |ids| && ids[i] == answer;
      assert options[i].id == answer;
    }
  }

  /** A question whose correct answer names one of its options. */
  predicate WellFormed(q: Question) {
    q.correctAnswer in OptionIds(q.options)
  }

  // ---------------------------------------------------------------------
  // createQuestion

  /** The body of a create request, after the route's validation. */
  datatype CreateBody = CreateBody(
    quizId: Id, question: string, options: seq<QuestionOption>,
    correctAnswer: string, explanation: string, order: Option<int>)

  /** What the create route's validators demand before the handler runs (questionRoutes.ts). */
  predicate CreateRouteAccepts(b: CreateBody) {
    Trim(b.question) != "" && |b.options| >= 2 &&
    (forall i :: 0 <= i < |b.options| ==> Trim(b.options[i].id) != "" && Trim(b.options[i].text) != "") &&
    Trim(b.correctAnswer) != "" && Trim(b.explanation) != "" &&
    (b.order.Some? ==> b.order.value >= 0)
  }

  /** The refusals of `createQuestion`, in the order it makes them. */
  function CreateQuestionCheck(quizzes: map<Id, Quiz>, b: CreateBody): (r: Option<AppError>)
    ensures r == None <==> b.quizId in quizzes && b.correctAnswer in OptionIds(b.options)
    ensures b.quizId !in quizzes ==> r == Some(Fail(404, QuizNotFound))
    ensures b.quizId in quizzes && b.correctAnswer !in OptionIds(b.options) ==> r == Some(Fail(400, CorrectAnswerNotAnOption))
  {
    if b.quizId !in quizzes then Some(Fail(404, QuizNotFound))
    else if b.correctAnswer !in OptionIds(b.options) then Some(Fail(400, CorrectAnswerNotAnOption))
    else None
  }

  /** `order || 0`: an absent or zero order is stored as 0. */
  function StoredOrder(order: Option<int>): (n: int)
    ensures order.Some? && order.value != 0 ==> n == order.value
    ensures order.None? || order.value == 0 ==> n == 0
  {
    if order.Some? && order.value != 0 then order.value else 0
  }

  /** The row `createQuestion` inserts under the generated id. */
  function NewQuestion(id: Id, b: CreateBody): (q: Question)
    ensures q.id == id && q.quizId == b.quizId && q.question == b.question && q.options == b.options
    ensures q.correctAnswer == b.correctAnswer && q.explanation == b.explanation && q.order == StoredOrder(b.order)
  {
    Question(id, b.quizId, b.question, None, b.options, b.correctAnswer, b.explanation, StoredOrder(b.order))
  }

  /** A question the handler creates names one of its own options as the answer, whatever the route let through. */
  lemma CreatedQuestionIsWellFormed(quizzes: map<Id, Quiz>, id: Id, b: CreateBody)
    requires CreateQuestionCheck(quizzes, b) == None
    ensures WellFormed(NewQuestion(id, b))
    ensures exists i :: 0 <= i < |NewQuestion(id, b).options| && NewQuestion(id, b).options[i].id == b.correctAnswer
  {
    OptionIdsMembership(b.options, b.correctAnswer);
  }

  /** Behind the route, a created question has at least two options and a non-negative order. */
  lemma CreatedQuestionShape(id: Id, b: CreateBody)
    requires CreateRouteAccepts(b)
    ensures |NewQuestion(id, b).options| >= 2 && NewQuestion(id, b).order >= 0
  {
  }

  /** `createQuestion`: `newId` is the identifier the store generates. */
  method CreateQuestion(db: Store.Database, b: CreateBody, newId: Id) returns (r: Result<Question, AppError>)
    requires db.Valid() && newId !in db.questions
    modifies db`questions
    ensures db.Valid()
    ensures CreateQuestionCheck(db.quizzes, b).Some? ==>
      r == Err(CreateQuestionCheck(db.quizzes, b).value) && db.questions == old(db.questions)
    ensures CreateQuestionCheck(db.quizzes, b).None? ==>
      r == Ok(NewQuestion(newId, b)) && db.questions == old(db.questions)[newId := r.value]
  {
    var check := CreateQuestionCheck(db.quizzes, b);
    if check.Some? {
      return Err(check.value);
    }
    var question := NewQuestion(newId, b);
    db.questions := db.questions[newId := question];
    r := Ok(question);
  }

  // ---------------------------------------------------------------------
  // getQuestion and deleteQuestion

  /** `getQuestion` */
  function GetQuestion(questions: map<Id, Question>, id: Id): (r: Result<Question, AppError>)
    ensures id !in questions ==> r == Err(Fail(404, QuestionNotFound))
    ensures id in questions ==> r == Ok(questions[id])
  {
    if id !in questions then Err(Fail(404, QuestionNotFound)) else Ok(questions[id])
  }

  /** The answer rows that survive deleting question `id` (the foreign key cascades). */
  function AnswersWithout(answers: seq<AnswerRow>, id: Id): (rest: seq<AnswerRow>)
    ensures |rest| <= |answers|
    ensures forall i :: 0 <= i < |rest| ==> rest[i].questionId != id && rest[i] in answers
    ensures forall a :: a in answers && a.questionId != id ==> a in rest
  {
    if answers == [] then []
    else
      var init := AnswersWithout(answers[..|answers| - 1], id);
      var last := answers[|answers| - 1];
      assert forall a :: a in answers ==> a in answers[..|answers| - 1] || a == last;
      if last.questionId == id then init else init + [last]
  }

  /** `deleteQuestion` */
  method DeleteQuestion(db: Store.Database, id: Id) returns (r: Result<string, AppError>)
    requires db.Valid()
    modifies db`questions, db`answers
    ensures db.Valid()
    ensures id !in old(db.questions) ==>
      r == Err(Fail(404, QuestionNotFound)) && db.questions == old(db.questions) && db.answers == old(db.answers)
    ensures id in old(db.questions) ==>
      r == Ok(QuestionDeleted) && db.questions == old(db.questions) - {id} &&
      db.answers == AnswersWithout(old(db.answers), id)
  {
    if id !in db.questions {
      return Err(Fail(404, QuestionNotFound));
    }
    db.questions := db.questions - {id};
    db.answers := AnswersWithout(db.answers, id);
    r := Ok(QuestionDeleted);
  }

  /** Deleting removes exactly that question: every other one is still there, unchanged. */
  lemma DeleteRemovesExactlyOne(questions: map<Id, Question>, id: Id, other: Id)
    requires id in questions
    ensures id !in questions - {id}
    ensures other != id ==> (other in questions - {id} <==> other in questions)
    ensures other != id && other in questions ==> (questions - {id})[other] == questions[other]
  {
  }

  // ---------------------------------------------------------------------
  // updateQuestion

  /** The body of an update request: every field may be left out. */
  datatype UpdateBody = UpdateBody(
    quizId: Option<Id>, question: Option<string>, options: Option<seq<QuestionOption>>,
    correctAnswer: Option<string>, explanation: Option<string>, order: Option<int>)

  const EmptyUpdate := UpdateBody(None, None, None, None, None, None)

  /** The refusals of `updateQuestion`, in the order it makes them. */
  function UpdateQuestionCheck(questions: map<Id, Question>, quizzes: map<Id, Quiz>, id: Id, b: UpdateBody): (r: Option<AppError>)
    ensures id !in questions ==> r == Some(Fail(404, QuestionNotFound))
    ensures id in questions && SomeTruthy(b.quizId) && b.quizId.value !in quizzes ==> r == Some(Fail(404, QuizNotFound))
    ensures r == None <==>
      id in questions && (SomeTruthy(b.quizId) ==> b.quizId.value in quizzes) &&
      (b.options.Some? && SomeTruthy(b.correctAnswer) ==> b.correctAnswer.value in OptionIds(b.options.value))
  {
    if id !in questions then Some(Fail(404, QuestionNotFound))
    else if SomeTruthy(b.quizId) && b.quizId.value !in quizzes then Some(Fail(404, QuizNotFound))
    else if b.options.Some? && SomeTruthy(b.correctAnswer) && b.correctAnswer.value !in OptionIds(b.options.value) then
      Some(Fail(400, CorrectAnswerNotAnOption))
    else None
  }

  /**
   * The spread-merged update record applied to the stored row: quizId,
   * question and correctAnswer when supplied non-empty, options whenever
   * supplied (an array is always truthy), explanation and order whenever
   * they are not undefined.
   */
  function Merge(q: Question, b: UpdateBody): (u: Question)
    ensures u.id == q.id && u.difficulty == q.difficulty
    ensures u.quizId == (if SomeTruthy(b.quizId) then b.quizId.value else q.quizId)
    ensures u.question == (if SomeTruthy(b.question) then b.question.value else q.question)
    ensures u.options == (if b.options.Some? then b.options.value else q.options)
    ensures u.correctAnswer == (if SomeTruthy(b.correctAnswer) then b.correctAnswer.value else q.correctAnswer)
    ensures u.explanation == b.explanation.GetOr(q.explanation)
    ensures u.order == b.order.GetOr(q.order)
  {
    q.(quizId := if SomeTruthy(b.quizId) then b.quizId.value else q.quizId,
       question := if SomeTruthy(b.question) then b.question.value else q.question,
       options := if b.options.Some? then b.options.value else q.options,
       correctAnswer := if SomeTruthy(b.correctAnswer) then b.correctAnswer.value else q.correctAnswer,
       explanation := b.explanation.GetOr(q.explanation),
       order := b.order.GetOr(q.order))
  }

  /** An update that supplies nothing changes nothing. */
  lemma EmptyUpdateIsIdentity(q: Question)
    ensures Merge(q, EmptyUpdate) == q
  {
  }

  /** Applying the same update twice is the same as applying it once. */
  lemma MergeIdempotent(q: Question, b: UpdateBody)
    ensures Merge(Merge(q, b), b) == Merge(q, b)
  {
  }

  /** An update that supplies every field overrides whatever earlier update came before it. */
  lemma MergeLaterWins(q: Question, b1: UpdateBody, b2: UpdateBody)
    requires SomeTruthy(b2.quizId) && SomeTruthy(b2.question) && b2.options.Some? && SomeTruthy(b2.correctAnswer)
    requires b2.explanation.Some? && b2.order.Some?
    ensures Merge(Merge(q, b1), b2) == Merge(q, b2)
  {
  }

  /** When the new options and the new answer are checked together, the updated question is well formed. */
  lemma CheckedUpdateIsWellFormed(questions: map<Id, Question>, quizzes: map<Id, Quiz>, id: Id, b: UpdateBody)
    requires UpdateQuestionCheck(questions, quizzes, id, b) == None
    requires b.options.Some? && SomeTruthy(b.correctAnswer)
    ensures WellFormed(Merge(questions[id], b))
  {
  }

  /** An update that touches neither options nor the answer keeps a well-formed question well formed. */
  lemma UntouchedAnswerStaysWellFormed(q: Question, b: UpdateBody)
    requires WellFormed(q) && b.options.None? && !SomeTruthy(b.correctAnswer)
    ensures WellFormed(Merge(q, b))
  {
  }

  /**
   * New options without a new answer are not checked against the stored
   * answer, so an accepted update can leave a question whose answer is no
   * longer one of its options.
   */
  lemma OptionsAloneAreNotRechecked(quizzes: map<Id, Quiz>)
    ensures var q := Question("q", "z", "?", None, [QuestionOption("a", "A", None), QuestionOption("b", "B", None)], "a", "", 0);
      var b := EmptyUpdate.(options := Some([QuestionOption("c", "C", None), QuestionOption("d", "D", None)]));
      WellFormed(q) && UpdateQuestionCheck(map["q" := q], quizzes, "q", b) == None && !WellFormed(Merge(q, b))
  {
    var q := Question("q", "z", "?", None, [QuestionOption("a", "A", None), QuestionOption("b", "B", None)], "a", "", 0);
    var opts := [QuestionOption("c", "C", None), QuestionOption("d", "D", None)];
    assert OptionIds(q.options) == ["a", "b"];
    assert OptionIds(opts) == ["c", "d"];
  }

  /** `updateQuestion` */
  method UpdateQuestion(db: Store.Database, id: Id, b: UpdateBody) returns (r: Result<Question, AppError>)
    requires db.Valid()
    modifies db`questions
    ensures db.Valid()
    ensures UpdateQuestionCheck(old(db.questions), db.quizzes, id, b).Some? ==>
      r == Err(UpdateQuestionCheck(old(db.questions), db.quizzes, id, b).value) && db.questions == old(db.questions)
    ensures UpdateQuestionCheck(old(db.questions), db.quizzes, id, b).None? ==>
      r == Ok(Merge(old(db.questions)[id], b)) && db.questions == old(db.questions)[id := r.value]
  {
    var check := UpdateQuestionCheck(db.questions, db.quizzes, id, b);
    if check.Some? {
      return Err(check.value);
    }
    var updated := Merge(db.questions[id], b);
    db.questions := db.questions[id := updated];
    r := Ok(updated);
  }
}
