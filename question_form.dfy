/**
 * The manager's question form (client/src/components/QuestionForm.tsx): its
 * state fields, the handlers that edit the option list, and submission. The
 * new option lists are pure functions of the old one; the handlers assign
 * them.
 */
module QuestionForm {
  import opened Common
  import opened Types

  const AtLeastTwoOptions := "At least 2 options are required"
  const QuestionTextRequired := "Question text is required"
  const OptionTextsRequired := "All option texts are required"
  const SelectCorrectAnswer := "Please select the correct answer"
  const SaveFailed := "Failed to save question"

  /** The two blank options `a` and `b` a new form starts with. */
  const BlankOptions := [QuestionOption("a", "", Some("")), QuestionOption("b", "", Some(""))]

  /**
   * `String.fromCharCode(97 + n)`: `a`, `b`, ... A code unit that is half of
   * a surrogate pair is not a Dafny character and is shown as U+FFFD.
   */
  function OptionIdFor(n: nat): (id: string)
    ensures |id| == 1
    ensures n < 26 ==> id[0] as int == 97 + n && 'a' <= id[0] <= 'z'
  {
    var code := (97 + n) % 0x1_0000;
    if 0xD800 <= code < 0xE000 then "\U{FFFD}" else [code as char]
  }

  /** Below 26 options every position gets its own letter. */
  lemma OptionIdsDistinct(n: nat, m: nat)
    requires n < 26 && m < 26 && n != m
    ensures OptionIdFor(n) != OptionIdFor(m)
  {
    assert OptionIdFor(n)[0] as int != OptionIdFor(m)[0] as int;
  }

  // ---------------------------------------------------------------------
  // The option list

  /** `[...options, {id: nextId, text: '', explanation: ''}]` */
  function AddedOptions(options: seq<QuestionOption>): (r: seq<QuestionOption>)
    ensures |r| == |options| + 1 && r[..|options|] == options
    ensures r[|options|] == QuestionOption(OptionIdFor(|options|), "", Some(""))
  {
    options + [QuestionOption(OptionIdFor(|options|), "", Some(""))]
  }

  /** `options.filter((_, i) => i !== index)` for an index on the list. */
  function RemovedOptions(options: seq<QuestionOption>, index: nat): (r: seq<QuestionOption>)
    requires index < |options|
    ensures |r| == |options| - 1
    ensures forall j :: 0 <= j < index ==> r[j] == options[j]
    ensures forall j :: index <= j < |r| ==> r[j] == options[j + 1]
  {
    options[..index] + options[index + 1..]
  }

  /** The fields of an option, `keyof QuestionOption`. */
  datatype OptionField = IdField | TextField | ExplanationField

  /** `{ ...option, [field]: value }` */
  function WithField(o: QuestionOption, field: OptionField, value: string): (r: QuestionOption)
    ensures field == IdField ==> r.id == value && r.text == o.text && r.explanation == o.explanation
    ensures field == TextField ==> r.text == value && r.id == o.id && r.explanation == o.explanation
    ensures field == ExplanationField ==> r.explanation == Some(value) && r.id == o.id && r.text == o.text
  {
    match field
    case IdField => o.(id := value)
    case TextField => o.(text := value)
    case ExplanationField => o.(explanation := Some(value))
  }

  /** Removing an option and adding one can reuse an id still on the list: the ids are not checked. */
  lemma AddAfterRemoveRepeatsId()
    ensures var opts := [QuestionOption("a", "", Some("")), QuestionOption("b", "", Some("")), QuestionOption("c", "", Some(""))];
      var after := AddedOptions(RemovedOptions(opts, 0));
      |after| == 3 && after[1].id == "c" && after[2].id == "c"
  {
    var opts := [QuestionOption("a", "", Some("")), QuestionOption("b", "", Some("")), QuestionOption("c", "", Some(""))];
    var removed := RemovedOptions(opts, 0);
    assert removed[1] == opts[2];
    assert OptionIdFor(2) == "c" by { assert ((97 + 2) % 0x1_0000) as char == 'c'; }
  }

  // ---------------------------------------------------------------------
  // Submission

  /** The client-side checks of `handleSubmit`, in the order it makes them. */
  function ValidateForm(text: string, options: seq<QuestionOption>, correctAnswer: string): (r: Option<string>)
    ensures r == None <==>
      Trim(text) != "" && (forall i :: 0 <= i < |options| ==> Trim(options[i].text) != "") && correctAnswer != ""
    ensures Trim(text) == "" ==> r == Some(QuestionTextRequired)
    ensures Trim(text) != "" && (exists i :: 0 <= i < |options| && Trim(options[i].text) == "") ==>
      r == Some(OptionTextsRequired)
    ensures Trim(text) != "" && (forall i :: 0 <= i < |options| ==> Trim(options[i].text) != "") && correctAnswer == "" ==>
      r == Some(SelectCorrectAnswer)
  {
    if Trim(text) == "" then Some(QuestionTextRequired)
    else if exists i | 0 <= i < |options| :: Trim(options[i].text) == "" then Some(OptionTextsRequired)
    else if correctAnswer == "" then Some(SelectCorrectAnswer)
    else None
  }

  /** The create or update body the form sends. */
  datatype QuestionPayload = QuestionPayload(
    question: string, quizId: Option<Id>, difficulty: string,
    options: seq<QuestionOption>, correctAnswer: string, explanation: Option<string>)

  /** An option as sent: id kept, text and explanation trimmed. */
  function TrimmedOption(o: QuestionOption): (r: QuestionOption)
    ensures r.id == o.id && |r.text| <= |o.text| && (r.explanation.Some? <==> o.explanation.Some?)
  {
    QuestionOption(o.id, Trim(o.text), if o.explanation.Some? then Some(Trim(o.explanation.value)) else None)
  }

  /** Trimming the options as sent is idempotent: sending a sent option again changes nothing. */
  lemma TrimmedOptionIdempotent(o: QuestionOption)
    ensures TrimmedOption(TrimmedOption(o)) == TrimmedOption(o)
  {
    TrimIdempotent(o.text);
    if o.explanation.Some? {
      TrimIdempotent(o.explanation.value);
    }
  }

  /** The payload: `quizId` only when creating, trimmed texts, and a blank explanation left out. */
  function BuildPayload(creating: bool, quizId: Id, text: string, difficulty: string,
                        options: seq<QuestionOption>, correctAnswer: string, explanation: string): (p: QuestionPayload)
    ensures p.quizId.Some? <==> creating
    ensures creating ==> p.quizId == Some(quizId)
    ensures p.question == Trim(text) && p.difficulty == difficulty && p.correctAnswer == correctAnswer
    ensures |p.options| == |options|
    ensures forall i :: 0 <= i < |options| ==>
      p.options[i].id == options[i].id && p.options[i].text == Trim(options[i].text) &&
      p.options[i].explanation.Some? == options[i].explanation.Some?
    ensures p.explanation.None? <==> Trim(explanation) == ""
    ensures p.explanation.Some? ==> p.explanation.value == Trim(explanation)
  {
    QuestionPayload(Trim(text), if creating then Some(quizId) else None, difficulty,
      seq(|options|, i requires 0 <= i < |options| => TrimmedOption(options[i])),
      correctAnswer, if Trim(explanation) == "" then None else Some(Trim(explanation)))
  }

  /** A payload that passed the checks has a non-blank question and no blank option text. */
  lemma SentPayloadHasNoBlanks(creating: bool, quizId: Id, text: string, difficulty: string,
                               options: seq<QuestionOption>, correctAnswer: string, explanation: string)
    requires ValidateForm(text, options, correctAnswer) == None
    ensures var p := BuildPayload(creating, quizId, text, difficulty, options, correctAnswer, explanation);
      p.question != "" && p.correctAnswer != "" && forall i :: 0 <= i < |p.options| ==> p.options[i].text != ""
  {
  }

  // ---------------------------------------------------------------------
  // The component

  class QuestionFormState {
    /** The `question` prop: the question being edited, or none when creating. */
    const question: Option<Question>
    /** The `quizId` prop. */
    const quizId: Id
    var text: string
    var difficulty: string
    var explanation: string
    var options: seq<QuestionOption>
    var correctAnswer: string
    var error: Option<string>
    var success: bool

    /** The initial state: the edited question's fields, else a blank form with options `a` and `b`. */
    constructor (question: Option<Question>, quizId: Id)
      ensures this.question == question && this.quizId == quizId
      ensures question.Some? ==>
        text == question.value.question && explanation == question.value.explanation &&
        options == question.value.options && correctAnswer == question.value.correctAnswer &&
        difficulty == question.value.difficulty.GetOr("beginner")
      ensures question.None? ==>
        text == "" && explanation == "" && options == BlankOptions && correctAnswer == "" && difficulty == "beginner"
      ensures error == None && !success
    {
      this.question := question;
      this.quizId := quizId;
      match question {
        case Some(q) =>
          text, explanation, options, correctAnswer := q.question, q.explanation, q.options, q.correctAnswer;
          difficulty := q.difficulty.GetOr("beginner");
        case None =>
          text, explanation, options, correctAnswer := "", "", BlankOptions, "";
          difficulty := "beginner";
      }
      error, success := None, false;
    }

    /** `addOption` */
    method AddOption()
      modifies this`options
      ensures options == AddedOptions(old(options))
    {
      options := AddedOptions(options);
    }

    /** `removeOption(index)`: refused while two or fewer options remain; clears the answer it removes. */
    method RemoveOption(index: nat)
      requires index < |options|
      modifies this`options, this`correctAnswer, this`error
      ensures |old(options)| <= 2 ==>
        options == old(options) && correctAnswer == old(correctAnswer) && error == Some(AtLeastTwoOptions)
      ensures |old(options)| > 2 ==>
        options == RemovedOptions(old(options), index) && error == old(error) &&
        correctAnswer == (if old(correctAnswer) == old(options)[index].id then "" else old(correctAnswer))
      ensures |old(options)| >= 2 ==> |options| >= 2
    {
      if |options| <= 2 {
        error := Some(AtLeastTwoOptions);
        return;
      }
      var removedId := options[index].id;
      options := RemovedOptions(options, index);
      if correctAnswer == removedId {
        correctAnswer := "";
      }
    }

    /** `updateOption(index, field, value)` */
    method UpdateOption(index: nat, field: OptionField, value: string)
      requires index < |options|
      modifies this`options
      ensures options == old(options)[index := WithField(old(options)[index], field, value)]
    {
      options := options[index := WithField(options[index], field, value)];
    }

    /**
     * `handleSubmit`: the payload handed to `onSubmit`, if the checks pass,
     * and the state once that call has settled as `outcome` says.
     */
    method HandleSubmit(outcome: SubmitOutcome) returns (sent: Option<QuestionPayload>)
      modifies this
      ensures var failure := ValidateForm(old(text), old(options), old(correctAnswer));
        (failure.Some? ==> sent == None && error == failure) &&
        (failure.None? ==> sent == Some(BuildPayload(question.None?, quizId, old(text), old(difficulty), old(options), old(correctAnswer), old(explanation))))
      ensures sent.Some? && outcome.Rejected? ==> error == Some(RejectionText(outcome.responseError, outcome.message, SaveFailed))
      ensures sent.Some? && outcome.Saved? ==> error == None
      ensures success <==> sent.Some? && outcome.Saved?
      ensures sent.Some? && outcome.Saved? && question.None? ==>
        text == "" && explanation == "" && options == BlankOptions && correctAnswer == "" && difficulty == "beginner"
      ensures !(sent.Some? && outcome.Saved? && question.None?) ==>
        text == old(text) && explanation == old(explanation) && options == old(options) &&
        correctAnswer == old(correctAnswer) && difficulty == old(difficulty)
    {
      error, success := None, false;
      var failure := ValidateForm(text, options, correctAnswer);
      if failure.Some? {
        error := failure;
        return None;
      }
      sent := Some(BuildPayload(question.None?, quizId, text, difficulty, options, correctAnswer, explanation));
      match outcome {
        case Saved =>
          success := true;
          if question.None? {
            text, explanation, options, correctAnswer := "", "", BlankOptions, "";
            difficulty := "beginner";
          }
        case Rejected(responseError, message) =>
          error := Some(RejectionText(responseError, message, SaveFailed));
      }
    }
  }
}
