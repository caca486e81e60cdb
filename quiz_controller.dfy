/**
 * Reading quizzes and the questions a quiz taker is sent
 * (server/src/controllers/quizController.ts). Query results are given in the
 * order the store returns them.
 */
module QuizController {
  import opened Common
  import opened Types
  import opened ErrorHandler

  /** `getQuizzes`: the quizzes (newest first), restricted to a category only when one is given. */
  function GetQuizzes(quizzes: seq<Quiz>, categoryId: Option<Id>): (r: seq<Quiz>)
    ensures !SomeTruthy(categoryId) ==> r == quizzes
    ensures SomeTruthy(categoryId) ==> r == InCategory(quizzes, categoryId.value)
    ensures SomeTruthy(categoryId) ==> forall q :: q in r <==> q in quizzes && q.categoryId == categoryId.value
  {
    ByCategoryFilter(quizzes, categoryId)
  }

  /** `getQuiz` */
  function GetQuiz(quizzes: map<Id, Quiz>, id: Id): (r: Result<Quiz, AppError>)
    ensures id !in quizzes ==> r == Err(Fail(404, QuizNotFound))
    ensures id in quizzes ==> r == Ok(quizzes[id])
  {
    if id !in quizzes then Err(Fail(404, QuizNotFound)) else Ok(quizzes[id])
  }

  /** The stored questions of quiz `quizId`, in the order given (`orderBy: { order: 'asc' }`). */
  function QuestionsOf(rows: seq<Question>, quizId: Id): (r: seq<Question>)
    ensures |r| <= |rows|
    ensures forall q :: q in r <==> q in rows && q.quizId == quizId
  {
    if rows == [] then []
    else
      var init := rows[..|rows| - 1];
      var last := rows[|rows| - 1];
      assert forall q :: q in rows <==> q in init || q == last;
      QuestionsOf(init, quizId) + (if last.quizId == quizId then [last] else [])
  }

  /** Selection keeps the store's order: the rows of a concatenation are the concatenation of the rows. */
  lemma {:induction false} QuestionsOfConcat(a: seq<Question>, b: seq<Question>, quizId: Id)
    ensures QuestionsOf(a + b, quizId) == QuestionsOf(a, quizId) + QuestionsOf(b, quizId)
  {
    if b != [] {
      var init := b[..|b| - 1];
      assert (a + b)[..|a + b| - 1] == a + init;
      QuestionsOfConcat(a, init, quizId);
    } else {
      assert a + b == a;
    }
  }

  /** A single row is selected exactly when it belongs to the quiz, so the selection is an order-preserving filter. */
  lemma QuestionsOfSingle(q: Question, quizId: Id)
    ensures QuestionsOf([q], quizId) == if q.quizId == quizId then [q] else []
  {
    assert [q][..0] == [];
  }

  /** The copy of a question a quiz taker is sent: no answer and no explanation. */
  function Sanitize(q: Question): (s: Question)
    ensures s.correctAnswer == "" && s.explanation == ""
    ensures s.id == q.id && s.quizId == q.quizId && s.question == q.question && s.options == q.options && s.order == q.order
  {
    Question(q.id, q.quizId, q.question, None, q.options, "", "", q.order)
  }

  /** `getQuizQuestions` */
  function GetQuizQuestions(quizzes: map<Id, Quiz>, rows: seq<Question>, id: Id): (r: Result<seq<Question>, AppError>)
    ensures id !in quizzes ==> r == Err(Fail(404, QuizNotFound))
    ensures id in quizzes ==> r.Ok? && |r.value| == |QuestionsOf(rows, id)|
    ensures id in quizzes ==> forall i :: 0 <= i < |r.value| ==>
      r.value[i].correctAnswer == "" && r.value[i].explanation == "" &&
      r.value[i].id == QuestionsOf(rows, id)[i].id && r.value[i].quizId == id &&
      r.value[i].question == QuestionsOf(rows, id)[i].question &&
      r.value[i].options == QuestionsOf(rows, id)[i].options && r.value[i].order == QuestionsOf(rows, id)[i].order
  {
    if id !in quizzes then Err(Fail(404, QuizNotFound))
    else
      var questions := QuestionsOf(rows, id);
      assert forall i :: 0 <= i < |questions| ==> questions[i] in questions;
      Ok(seq(|questions|, i requires 0 <= i < |questions| => Sanitize(questions[i])))
  }

  /** Two questions that differ at most in their answer, explanation and difficulty. */
  predicate SameButAnswer(a: Question, b: Question) {
    a.id == b.id && a.quizId == b.quizId && a.question == b.question && a.options == b.options && a.order == b.order
  }

  lemma {:induction false} QuestionsOfAlike(rows: seq<Question>, rows': seq<Question>, quizId: Id)
    requires |rows| == |rows'| && forall i :: 0 <= i < |rows| ==> SameButAnswer(rows[i], rows'[i])
    ensures var a, b := QuestionsOf(rows, quizId), QuestionsOf(rows', quizId);
      |a| == |b| && forall i :: 0 <= i < |a| ==> SameButAnswer(a[i], b[i])
  {
    if rows != [] {
      var n := |rows| - 1;
      QuestionsOfAlike(rows[..n], rows'[..n], quizId);
    }
  }

  /**
   * What a quiz taker receives does not depend on the stored answers or
   * explanations: tables that differ only there give the same response.
   */
  lemma ResponseIgnoresAnswers(quizzes: map<Id, Quiz>, rows: seq<Question>, rows': seq<Question>, id: Id)
    requires |rows| == |rows'| && forall i :: 0 <= i < |rows| ==> SameButAnswer(rows[i], rows'[i])
    ensures GetQuizQuestions(quizzes, rows, id) == GetQuizQuestions(quizzes, rows', id)
  {
    if id in quizzes {
      QuestionsOfAlike(rows, rows', id);
      var a, b := GetQuizQuestions(quizzes, rows, id).value, GetQuizQuestions(quizzes, rows', id).value;
      var qs, qs' := QuestionsOf(rows, id), QuestionsOf(rows', id);
      forall i | 0 <= i < |a| ensures a[i] == b[i] {
        assert a[i] == Sanitize(qs[i]) && b[i] == Sanitize(qs'[i]);
      }
      assert a == b;
    }
  }

  /** The options go out unchanged, so an explanation stored on an option is still sent. */
  lemma OptionExplanationsAreSent(quizzes: map<Id, Quiz>, rows: seq<Question>, id: Id, i: nat, j: nat)
    requires id in quizzes && i < |QuestionsOf(rows, id)| && j < |QuestionsOf(rows, id)[i].options|
    ensures GetQuizQuestions(quizzes, rows, id).value[i].options[j].explanation ==
      QuestionsOf(rows, id)[i].options[j].explanation
  {
  }
}
