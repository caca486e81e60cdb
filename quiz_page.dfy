/**
 * Taking a quiz (client/src/pages/QuizPage.tsx): which question is shown,
 * the answers chosen so far, and the answers handed to `completeAttempt`.
 * The answers are a JavaScript `Map`, which remembers the order in which
 * keys were first set; the model keeps that order beside the map.
 */
module QuizPage {
  import opened Common
  import opened Types

  /** The ids of the loaded questions, in order. */
  function QuestionIds(questions: seq<Question>): (ids: seq<Id>)
    ensures |ids| == |questions| && forall i :: 0 <= i < |questions| ==> ids[i] == questions[i].id
  {
    seq(|questions|, i requires 0 <= i < |questions| => questions[i].id)
  }

  /** `new Map(answers).set(key, value)`: a new key goes last, an existing one keeps its place. */
  function SetOrder(order: seq<Id>, answers: map<Id, string>, key: Id): (order': seq<Id>)
    ensures key in answers ==> order' == order
    ensures key !in answers ==> order' == order + [key]
  {
    if key in answers then order else order + [key]
  }

  /** `Array.from(answers.entries()).map(...)`: one submitted answer per entry, in the map's order. */
  function Entries(answers: map<Id, string>, order: seq<Id>): (r: seq<SubmitAnswer>)
    requires forall k :: k in order ==> k in answers
    ensures |r| == |order|
    ensures forall i :: 0 <= i < |order| ==> r[i] == SubmitAnswer(order[i], answers[order[i]])
  {
    seq(|order|, i requires 0 <= i < |order| => SubmitAnswer(order[i], answers[order[i]]))
  }

  /** A subset is no larger than its superset, and as large only when they are equal. */
  lemma {:induction false} SubsetSize<T>(a: set<T>, b: set<T>)
    requires a <= b
    ensures |a| <= |b|
    ensures |a| == |b| ==> a == b
    decreases |a|
  {
    if a != {} {
      var y :| y in a;
      SubsetSize(a - {y}, b - {y});
      assert a == (a - {y}) + {y} && b == (b - {y}) + {y};
    } else if |b| == 0 {
      assert b == {};
    }
  }

  /** The submitted answers name each answered question exactly once, with its chosen option. */
  lemma EntriesMatchAnswers(answers: map<Id, string>, order: seq<Id>)
    requires Distinct(order) && forall k :: k in answers <==> k in order
    ensures var r := Entries(answers, order);
      |r| == |answers| &&
      (forall i, j :: 0 <= i < j < |r| ==> r[i].questionId != r[j].questionId) &&
      (forall k :: k in answers ==> exists i :: 0 <= i < |r| && r[i] == SubmitAnswer(k, answers[k]))
  {
    SetOfSeqSize(order);
    assert (set x | x in order) == answers.Keys;
    forall k | k in answers
      ensures exists i :: 0 <= i < |order| && Entries(answers, order)[i] == SubmitAnswer(k, answers[k])
    {
      var i :| 0 <= i < |order| && order[i] == k;
      assert Entries(answers, order)[i] == SubmitAnswer(k, answers[k]);
    }
  }

  /**
   * With distinct question ids and answers only ever given to loaded
   * questions, the count check of `handleSubmit` holds exactly when every
   * question has an answer.
   */
  lemma CountMeansAllAnswered(questions: seq<Question>, answers: map<Id, string>)
    requires Distinct(QuestionIds(questions))
    requires forall k :: k in answers ==> k in QuestionIds(questions)
    ensures |answers| == |questions| <==> forall i :: 0 <= i < |questions| ==> questions[i].id in answers
  {
    var ids := QuestionIds(questions);
    var idSet := set x | x in ids;
    SetOfSeqSize(ids);
    assert answers.Keys <= idSet;
    SubsetSize(answers.Keys, idSet);
    if forall i :: 0 <= i < |questions| ==> questions[i].id in answers {
      assert idSet <= answers.Keys by {
        forall x | x in idSet ensures x in answers {
          var i :| 0 <= i < |ids| && ids[i] == x;
          assert questions[i].id == x;
        }
      }
      assert answers.Keys == idSet;
      assert |answers| == |answers.Keys| == |idSet| == |questions|;
    }
    if |answers| == |questions| {
      assert |answers.Keys| == |idSet|;
      assert answers.Keys == idSet;
      forall i | 0 <= i < |questions| ensures questions[i].id in answers {
        assert ids[i] in idSet;
      }
    }
  }

  class QuizSession {
    /** The questions `getQuizQuestions` returned. */
    const questions: seq<Question>
    var currentQuestionIndex: int
    var answers: map<Id, string>
    /** The order of the keys of `answers`. */
    var answerOrder: seq<Id>

    /** The index stays on the list, and the answers are keyed by loaded questions in a remembered order. */
    ghost predicate Valid()
      reads this
    {
      0 <= currentQuestionIndex && (currentQuestionIndex < |questions| || currentQuestionIndex == 0) &&
      Distinct(answerOrder) && (forall k :: k in answers <==> k in answerOrder) &&
      (forall k :: k in answers ==> k in QuestionIds(questions))
    }

    constructor (questions: seq<Question>)
      ensures Valid()
      ensures this.questions == questions && currentQuestionIndex == 0 && answers == map[] && answerOrder == []
    {
      this.questions := questions;
      currentQuestionIndex, answers, answerOrder := 0, map[], [];
    }

    /** `handleAnswerSelect(answerId)`: sets, or overwrites, the answer to the question shown. */
    method SelectAnswer(answerId: string)
      requires Valid() && |questions| > 0
      modifies this`answers, this`answerOrder
      ensures Valid()
      ensures var key := questions[currentQuestionIndex].id;
        answers == old(answers)[key := answerId] && answerOrder == SetOrder(old(answerOrder), old(answers), key)
    ensures NextEnabled() <==> answerId != ""
    {
      var key := questions[currentQuestionIndex].id;
      assert key in QuestionIds(questions) by {
        assert QuestionIds(questions)[currentQuestionIndex] == key;
      }
      answerOrder := SetOrder(answerOrder, answers, key);
      answers := answers[key := answerId];
    }

    /** `handleNext`: moves on unless the last question is shown. */
    method Next()
      requires Valid()
      modifies this`currentQuestionIndex
      ensures Valid()
      ensures currentQuestionIndex == if old(currentQuestionIndex) < |questions| - 1 then old(currentQuestionIndex) + 1 else old(currentQuestionIndex)
    {
      if currentQuestionIndex < |questions| - 1 {
        currentQuestionIndex := currentQuestionIndex + 1;
      }
    }

    /** `handlePrevious`: moves back unless the first question is shown. */
    method Previous()
      requires Valid()
      modifies this`currentQuestionIndex
      ensures Valid()
      ensures currentQuestionIndex == if old(currentQuestionIndex) > 0 then old(currentQuestionIndex) - 1 else old(currentQuestionIndex)
    {
      if currentQuestionIndex > 0 {
        currentQuestionIndex := currentQuestionIndex - 1;
      }
    }

    /** The Next button is enabled once the question shown has a (non-empty) answer. */
    predicate NextEnabled()
      reads this
    {
      0 <= currentQuestionIndex < |questions| &&
      var key := questions[currentQuestionIndex].id;
      key in answers && answers[key] != ""
    }

    /**
     * `handleSubmit`: refused unless there are as many answers as
     * questions; otherwise the answers sent to `completeAttempt`.
     */
    method Submit() returns (submitted: Option<seq<SubmitAnswer>>)
      requires Valid()
      ensures submitted.None? <==> |answers| != |questions|
      ensures submitted.Some? ==> submitted.value == Entries(answers, answerOrder)
      ensures submitted.Some? ==> |submitted.value| == |questions|
    {
      if |answers| != |questions| {
        return None;
      }
      SetOfSeqSize(answerOrder);
      assert (set x | x in answerOrder) == answers.Keys;
      submitted := Some(Entries(answers, answerOrder));
    }
  }
}
