/**
 * Starting and completing quiz attempts
 * (server/src/controllers/attemptController.ts).
 */
module AttemptController {
  import opened Common
  import opened Types
  import opened ErrorHandler
  import Store

  // ---------------------------------------------------------------------
  // startAttempt

  /** The existence checks of `startAttempt`, in the order it makes them. */
  function StartAttemptCheck(users: map<Id, User>, quizzes: map<Id, Quiz>, userId: Id, quizId: Id): (r: Option<AppError>)
    ensures r == None <==> userId in users && quizId in quizzes
    ensures userId !in users ==> r == Some(Fail(404, UserNotFound))
    ensures userId in users && quizId !in quizzes ==> r == Some(Fail(404, QuizNotFound))
  {
    if userId !in users then Some(Fail(404, UserNotFound))
    else if quizId !in quizzes then Some(Fail(404, QuizNotFound))
    else None
  }

  /** A fresh attempt row: not yet scored and not completed. */
  function NewAttempt(id: Id, userId: Id, quizId: Id, now: int): (a: Attempt)
    ensures a.id == id && a.userId == userId && a.quizId == quizId && a.completedAt.None?
    ensures a.score == 0 && a.percentage == 0.0 && a.startedAt == now
  {
    Attempt(id, userId, quizId, 0, 0.0, now, None)
  }

  /** `startAttempt`: `newId` is the identifier the store generates, `now` the current time. */
  method StartAttempt(db: Store.Database, userId: Id, quizId: Id, newId: Id, now: int) returns (r: Result<Attempt, AppError>)
    requires db.Valid() && newId !in db.attempts
    modifies db`attempts
    ensures db.Valid()
    ensures StartAttemptCheck(db.users, db.quizzes, userId, quizId).Some? ==>
      r == Err(StartAttemptCheck(db.users, db.quizzes, userId, quizId).value) && db.attempts == old(db.attempts)
    ensures StartAttemptCheck(db.users, db.quizzes, userId, quizId).None? ==>
      r == Ok(NewAttempt(newId, userId, quizId, now)) && db.attempts == old(db.attempts)[newId := r.value]
  {
    var check := StartAttemptCheck(db.users, db.quizzes, userId, quizId);
    if check.Some? {
      return Err(check.value);
    }
    var attempt := NewAttempt(newId, userId, quizId, now);
    db.attempts := db.attempts[newId := attempt];
    r := Ok(attempt);
  }

  // ---------------------------------------------------------------------
  // completeAttempt: specification of the scoring loop

  /** `questionMap`: the questions of one quiz, by id. */
  function QuizQuestions(questions: map<Id, Question>, quizId: Id): (m: map<Id, Question>)
    ensures forall id :: id in m <==> id in questions && questions[id].quizId == quizId
    ensures forall id :: id in m ==> m[id] == questions[id]
  {
    map id | id in questions && questions[id].quizId == quizId :: questions[id]
  }

  datatype AnswerResult = AnswerResult(question: Question, userAnswer: string, correctAnswer: string, isCorrect: bool, explanation: string)

  datatype QuizResult = QuizResult(
    attempt: Attempt, score: int, percentage: real, totalQuestions: nat,
    correctAnswers: nat, incorrectAnswers: int, feedback: string, answers: seq<AnswerResult>)

  /** The result entry of one answer to a known question: correct iff it equals the stored answer exactly. */
  function Judge(q: Question, a: SubmitAnswer): (r: AnswerResult)
    ensures r.question == q && r.userAnswer == a.userAnswer && r.correctAnswer == q.correctAnswer
    ensures r.isCorrect <==> a.userAnswer == q.correctAnswer
    ensures r.explanation == q.explanation
  {
    AnswerResult(q, a.userAnswer, q.correctAnswer, a.userAnswer == q.correctAnswer, q.explanation)
  }

  /** `answerResults` after the loop has run over `answers`. */
  function Process(qmap: map<Id, Question>, answers: seq<SubmitAnswer>): seq<AnswerResult>
  {
    if answers == [] then []
    else
      var last := answers[|answers| - 1];
      Process(qmap, answers[..|answers| - 1]) + (if last.questionId in qmap then [Judge(qmap[last.questionId], last)] else [])
  }

  /** The answer rows the loop inserts while it runs over `answers`. */
  function AnswerRows(attemptId: Id, qmap: map<Id, Question>, answers: seq<SubmitAnswer>): seq<AnswerRow>
  {
    if answers == [] then []
    else
      var last := answers[|answers| - 1];
      AnswerRows(attemptId, qmap, answers[..|answers| - 1]) +
        (if last.questionId in qmap
         then [AnswerRow(attemptId, last.questionId, last.userAnswer, last.userAnswer == qmap[last.questionId].correctAnswer)]
         else [])
  }

  /** `correctCount`: the number of results marked correct. */
  function CorrectCount(results: seq<AnswerResult>): (n: nat)
    ensures n <= |results|
  {
    if results == [] then 0
    else CorrectCount(results[..|results| - 1]) + (if results[|results| - 1].isCorrect then 1 else 0)
  }

  /** The answers whose question belongs to the quiz, in submission order (the reference filter). */
  function Known(qmap: map<Id, Question>, answers: seq<SubmitAnswer>): (k: seq<SubmitAnswer>)
    ensures |k| <= |answers|
    ensures forall i :: 0 <= i < |k| ==> k[i].questionId in qmap && k[i] in answers
  {
    if answers == [] then []
    else if answers[0].questionId in qmap then [answers[0]] + Known(qmap, answers[1..])
    else Known(qmap, answers[1..])
  }

  lemma {:induction false} KnownSnoc(qmap: map<Id, Question>, answers: seq<SubmitAnswer>, a: SubmitAnswer)
    ensures Known(qmap, answers + [a]) == Known(qmap, answers) + (if a.questionId in qmap then [a] else [])
  {
    if answers == [] {
      assert [] + [a] == [a];
      assert [a][1..] == [];
    } else {
      assert (answers + [a])[1..] == answers[1..] + [a];
      assert (answers + [a])[0] == answers[0];
      KnownSnoc(qmap, answers[1..], a);
    }
  }

  /**
   * The loop's results are exactly the known answers, judged one by one, in
   * submission order: unknown question ids are skipped, repeated ones are not merged.
   */
  lemma {:induction false} ProcessJudgesKnownAnswers(qmap: map<Id, Question>, answers: seq<SubmitAnswer>)
    ensures var k := Known(qmap, answers);
      |Process(qmap, answers)| == |k| &&
      forall i :: 0 <= i < |k| ==> Process(qmap, answers)[i] == Judge(qmap[k[i].questionId], k[i])
  {
    if answers != [] {
      var init, last := answers[..|answers| - 1], answers[|answers| - 1];
      assert answers == init + [last];
      ProcessJudgesKnownAnswers(qmap, init);
      KnownSnoc(qmap, init, last);
    }
  }

  /** The results and the inserted answer rows match one to one. */
  lemma {:induction false} RowsMatchResults(attemptId: Id, qmap: map<Id, Question>, answers: seq<SubmitAnswer>)
    requires forall id :: id in qmap ==> qmap[id].id == id
    ensures var rows, res := AnswerRows(attemptId, qmap, answers), Process(qmap, answers);
      |rows| == |res| &&
      forall i :: 0 <= i < |rows| ==>
        rows[i] == AnswerRow(attemptId, res[i].question.id, res[i].userAnswer, res[i].isCorrect)
  {
    if answers != [] {
      RowsMatchResults(attemptId, qmap, answers[..|answers| - 1]);
    }
  }

  /** No answer, or only answers to unknown questions, scores nothing. */
  lemma {:induction false} UnknownAnswersScoreNothing(qmap: map<Id, Question>, answers: seq<SubmitAnswer>)
    requires forall i :: 0 <= i < |answers| ==> answers[i].questionId !in qmap
    ensures Process(qmap, answers) == []
  {
    if answers != [] {
      UnknownAnswersScoreNothing(qmap, answers[..|answers| - 1]);
    }
  }

  /** The same known answer submitted twice is judged twice. */
  lemma ProcessTwice(qmap: map<Id, Question>, a: SubmitAnswer)
    requires a.questionId in qmap
    ensures var j := Judge(qmap[a.questionId], a); Process(qmap, [a, a]) == [j, j]
  {
    var j := Judge(qmap[a.questionId], a);
    assert [a][..0] == [];
    assert Process(qmap, [a]) == [] + [j];
    assert [a, a][..1] == [a];
    assert Process(qmap, [a, a]) == [j] + [j];
  }

  lemma CorrectCountTwice(j: AnswerResult)
    requires j.isCorrect
    ensures CorrectCount([j, j]) == 2
  {
    assert [j, j][..1] == [j];
    assert [j][..0] == [];
  }

  /** The same correct answer submitted twice counts twice: the score can exceed the number of questions. */
  lemma RepeatedAnswerCountsTwice(q: Question)
    ensures var qmap, a := map[q.id := q], SubmitAnswer(q.id, q.correctAnswer);
      CorrectCount(Process(qmap, [a, a])) == 2 > |qmap| == 1 && Percentage(2, 1) == 200.0
  {
    var qmap, a := map[q.id := q], SubmitAnswer(q.id, q.correctAnswer);
    ProcessTwice(qmap, a);
    CorrectCountTwice(Judge(q, a));
    assert qmap.Keys == {q.id};
  }

  // ---------------------------------------------------------------------
  // completeAttempt: percentage and feedback

  /** How a quotient by a positive number compares with one, and with zero. */
  lemma QuotientAgainstOne(c: real, t: real)
    requires t > 0.0
    ensures (c / t) * t == c
    ensures c / t == 1.0 <==> c == t
    ensures c <= t ==> c / t <= 1.0
    ensures c >= 0.0 ==> c / t >= 0.0
  {
    var q := c / t;
    assert q * t == c;
    if q > 1.0 {
      assert (q - 1.0) * t == q * t - t;
      assert (q - 1.0) * t > 0.0;
    }
    if q < 1.0 {
      assert (1.0 - q) * t == t - q * t;
      assert (1.0 - q) * t > 0.0;
    }
    if q < 0.0 {
      assert (0.0 - q) * t > 0.0;
    }
  }

  /** `(correctCount / totalQuestions) * 100`, on exact reals. */
  function Percentage(correct: nat, total: nat): (p: real)
    requires total > 0
    ensures p * total as real == 100.0 * correct as real
    ensures 0.0 <= p
    ensures correct <= total ==> p <= 100.0
    ensures p == 100.0 <==> correct == total
  {
    QuotientAgainstOne(correct as real, total as real);
    (correct as real / total as real) * 100.0
  }

  /** The feedback message for a percentage. */
  function Feedback(percentage: real): (m: string)
    ensures percentage >= 90.0 ==> m == ExcellentMessage
    ensures 75.0 <= percentage < 90.0 ==> m == GoodMessage
    ensures 60.0 <= percentage < 75.0 ==> m == AverageMessage
    ensures percentage < 60.0 ==> m == NeedsImprovementMessage
  {
    if percentage >= ExcellentThreshold then ExcellentMessage
    else if percentage >= GoodThreshold then GoodMessage
    else if percentage >= AverageThreshold then AverageMessage
    else NeedsImprovementMessage
  }

  lemma PercentageScaled(correct: nat, total: nat, bound: real)
    requires total > 0
    ensures Percentage(correct, total) >= bound <==> 100.0 * correct as real >= bound * total as real
  {
    var c, t := correct as real, total as real;
    assert Percentage(correct, total) * t == 100.0 * c;
  }

  /** The feedback tiers as integer ratios of correct answers to questions. */
  lemma FeedbackByRatio(correct: nat, total: nat)
    requires total > 0
    ensures Feedback(Percentage(correct, total)) == ExcellentMessage <==> 10 * correct >= 9 * total
    ensures Feedback(Percentage(correct, total)) == GoodMessage <==> 4 * correct >= 3 * total && 10 * correct < 9 * total
    ensures Feedback(Percentage(correct, total)) == AverageMessage <==> 5 * correct >= 3 * total && 4 * correct < 3 * total
    ensures Feedback(Percentage(correct, total)) == NeedsImprovementMessage <==> 5 * correct < 3 * total
  {
    PercentageScaled(correct, total, 90.0);
    PercentageScaled(correct, total, 75.0);
    PercentageScaled(correct, total, 60.0);
  }

  // ---------------------------------------------------------------------
  // completeAttempt

  /** The refusals of `completeAttempt`, in the order it makes them. */
  function CompleteAttemptCheck(attempts: map<Id, Attempt>, attemptId: Id): (r: Option<AppError>)
    ensures r == None <==> attemptId in attempts && attempts[attemptId].completedAt.None?
    ensures attemptId !in attempts ==> r == Some(Fail(404, AttemptNotFound))
    ensures attemptId in attempts && attempts[attemptId].completedAt.Some? ==> r == Some(Fail(400, AttemptAlreadyCompleted))
  {
    if attemptId !in attempts then Some(Fail(404, AttemptNotFound))
    else if attempts[attemptId].completedAt.Some? then Some(Fail(400, AttemptAlreadyCompleted))
    else None
  }

  /** The attempt row after a successful completion. */
  function Completed(a: Attempt, correct: nat, percentage: real, now: int): (c: Attempt)
    ensures c.id == a.id && c.userId == a.userId && c.quizId == a.quizId && c.startedAt == a.startedAt
    ensures c.score == correct && c.percentage == percentage && c.completedAt == Some(now)
  {
    a.(score := correct, percentage := percentage, completedAt := Some(now))
  }

  /** Once an attempt is completed, completing it again is refused with 400. */
  lemma SecondCompletionRefused(attempts: map<Id, Attempt>, attemptId: Id, correct: nat, pct: real, now: int)
    requires attemptId in attempts
    ensures var after := attempts[attemptId := Completed(attempts[attemptId], correct, pct, now)];
      CompleteAttemptCheck(after, attemptId) == Some(Fail(400, AttemptAlreadyCompleted))
  {
  }

  /** The whole result of `completeAttempt` for an open attempt. */
  function ResultFor(a: Attempt, qmap: map<Id, Question>, answers: seq<SubmitAnswer>, now: int): (r: QuizResult)
    requires |qmap| > 0
    ensures r.answers == Process(qmap, answers) && r.correctAnswers == CorrectCount(r.answers)
    ensures r.totalQuestions == |qmap| && r.correctAnswers + r.incorrectAnswers == r.totalQuestions
    ensures r.score == r.correctAnswers && r.percentage * |qmap| as real == 100.0 * r.correctAnswers as real
    ensures r.feedback == Feedback(r.percentage)
    ensures r.attempt.id == a.id && r.attempt.score == r.score && r.attempt.percentage == r.percentage &&
      r.attempt.completedAt == Some(now)
  {
    var results := Process(qmap, answers);
    var correct := CorrectCount(results);
    var pct := Percentage(correct, |qmap|);
    QuizResult(Completed(a, correct, pct, now), correct, pct, |qmap|, correct, |qmap| - correct, Feedback(pct), results)
  }

  /** One more answer: what it adds to the results and to the answer rows. */
  lemma AnswerStep(attemptId: Id, qmap: map<Id, Question>, answers: seq<SubmitAnswer>, i: nat)
    requires i < |answers|
    ensures var a := answers[i];
      Process(qmap, answers[..i + 1]) ==
        Process(qmap, answers[..i]) + (if a.questionId in qmap then [Judge(qmap[a.questionId], a)] else []) &&
      AnswerRows(attemptId, qmap, answers[..i + 1]) ==
        AnswerRows(attemptId, qmap, answers[..i]) +
        (if a.questionId in qmap
         then [AnswerRow(attemptId, a.questionId, a.userAnswer, a.userAnswer == qmap[a.questionId].correctAnswer)]
         else [])
  {
    assert answers[..i + 1][..i] == answers[..i];
  }

  /** An answer whose question is in the quiz appends its judged result and its row. */
  lemma KnownAnswerStep(attemptId: Id, qmap: map<Id, Question>, answers: seq<SubmitAnswer>, i: nat)
    requires i < |answers| && answers[i].questionId in qmap
    ensures var a, q := answers[i], qmap[answers[i].questionId];
      Process(qmap, answers[..i + 1]) ==
        Process(qmap, answers[..i]) + [AnswerResult(q, a.userAnswer, q.correctAnswer, a.userAnswer == q.correctAnswer, q.explanation)] &&
      AnswerRows(attemptId, qmap, answers[..i + 1]) ==
        AnswerRows(attemptId, qmap, answers[..i]) + [AnswerRow(attemptId, a.questionId, a.userAnswer, a.userAnswer == q.correctAnswer)]
  {
    AnswerStep(attemptId, qmap, answers, i);
  }

  /** An answer whose question is not in the quiz adds nothing. */
  lemma UnknownAnswerStep(attemptId: Id, qmap: map<Id, Question>, answers: seq<SubmitAnswer>, i: nat)
    requires i < |answers| && answers[i].questionId !in qmap
    ensures Process(qmap, answers[..i + 1]) == Process(qmap, answers[..i])
    ensures AnswerRows(attemptId, qmap, answers[..i + 1]) == AnswerRows(attemptId, qmap, answers[..i])
  {
    AnswerStep(attemptId, qmap, answers, i);
  }

  lemma CorrectCountSnoc(results: seq<AnswerResult>, r: AnswerResult)
    ensures CorrectCount(results + [r]) == CorrectCount(results) + (if r.isCorrect then 1 else 0)
  {
    assert (results + [r])[..|results|] == results;
  }

  /**
   * The loop of `completeAttempt`: judge each answer whose question belongs
   * to the quiz, insert its answer row and count the correct ones.
   */
  method RecordAnswers(db: Store.Database, attemptId: Id, questionMap: map<Id, Question>, answers: seq<SubmitAnswer>)
    returns (answerResults: seq<AnswerResult>, correctCount: nat)
    modifies db`answers
    ensures answerResults == Process(questionMap, answers)
    ensures correctCount == CorrectCount(answerResults)
    ensures db.answers == old(db.answers) + AnswerRows(attemptId, questionMap, answers)
  {
    correctCount := 0;
    answerResults := [];
    var i := 0;
    while i < |answers|
      invariant 0 <= i <= |answers|
      invariant answerResults == Process(questionMap, answers[..i])
      invariant correctCount == CorrectCount(answerResults)
      invariant db.answers == old(db.answers) + AnswerRows(attemptId, questionMap, answers[..i])
    {
      var answer := answers[i];
      if answer.questionId in questionMap {
        var question := questionMap[answer.questionId];
        var isCorrect := answer.userAnswer == question.correctAnswer;
        var result := AnswerResult(question, answer.userAnswer, question.correctAnswer, isCorrect, question.explanation);
        KnownAnswerStep(attemptId, questionMap, answers, i);
        CorrectCountSnoc(answerResults, result);
        if isCorrect {
          correctCount := correctCount + 1;
        }
        db.answers := db.answers + [AnswerRow(attemptId, answer.questionId, answer.userAnswer, isCorrect)];
        answerResults := answerResults + [result];
      } else {
        UnknownAnswerStep(attemptId, questionMap, answers, i);
      }
      i := i + 1;
    }
    assert answers[..|answers|] == answers;
  }

  /**
   * `completeAttempt`. The percentage is only defined when the quiz has at
   * least one question (otherwise the source divides by zero).
   */
  method CompleteAttempt(db: Store.Database, attemptId: Id, answers: seq<SubmitAnswer>, now: int)
    returns (r: Result<QuizResult, AppError>)
    requires db.Valid()
    requires attemptId in db.attempts && db.attempts[attemptId].completedAt.None? ==>
      |QuizQuestions(db.questions, db.attempts[attemptId].quizId)| > 0
    modifies db`attempts, db`answers
    ensures db.Valid()
    ensures CompleteAttemptCheck(old(db.attempts), attemptId).Some? ==>
      r == Err(CompleteAttemptCheck(old(db.attempts), attemptId).value) &&
      db.attempts == old(db.attempts) && db.answers == old(db.answers)
    ensures CompleteAttemptCheck(old(db.attempts), attemptId).None? ==>
      var a := old(db.attempts)[attemptId];
      var qmap := QuizQuestions(db.questions, a.quizId);
      r == Ok(ResultFor(a, qmap, answers, now)) &&
      db.attempts == old(db.attempts)[attemptId := r.value.attempt] &&
      db.answers == old(db.answers) + AnswerRows(attemptId, qmap, answers)
  {
    var check := CompleteAttemptCheck(db.attempts, attemptId);
    if check.Some? {
      return Err(check.value);
    }
    var attempt := db.attempts[attemptId];
    var questionMap := QuizQuestions(db.questions, attempt.quizId);

    var answerResults, correctCount := RecordAnswers(db, attemptId, questionMap, answers);

    var totalQuestions := |questionMap|;
    var percentage := Percentage(correctCount, totalQuestions);
    var updatedAttempt := Completed(attempt, correctCount, percentage, now);
    db.attempts := db.attempts[attemptId := updatedAttempt];
    var feedback := Feedback(percentage);
    var result := QuizResult(updatedAttempt, correctCount, percentage, totalQuestions,
                             correctCount, totalQuestions - correctCount, feedback, answerResults);
    assert result == ResultFor(attempt, questionMap, answers, now);
    r := Ok(result);
  }
}
