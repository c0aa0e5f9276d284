/**
 * Multiple-choice questions, after `backend/app/services/mcq_service.py`: the question bank
 * of "mcqs.json", filtered by subject, looked up by id, and answers checked against it.
 */
module McqService {
  import opened Wrappers
  import opened Seqs

  /** One question; a key the stored object lacks is `None`. `content` holds the remaining keys. */
  datatype Question = Question(
    id: Option<string>,
    subject: Option<string>,
    correctAnswer: Option<string>,
    explanation: Option<string>,
    createdAt: Option<string>,
    content: map<string, string>)

  /** The outcome of `validate_answer`. */
  datatype Validation =
    | NotFound(error: string)
    | Checked(correct: bool, correctAnswer: Option<string>, selectedOption: string,
              explanation: string, subject: string)

  const QuestionNotFound := "Question not found"

  /** `q.get("subject") == subject`; one named function so every filter uses the same test. */
  function HasSubject(subject: string): (p: Question -> bool)
    ensures forall q :: p(q) == (q.subject == Some(subject))
  {
    (q: Question) => q.subject == Some(subject)
  }

  /** `get_questions_by_subject`: the questions of one subject, in bank order. */
  function QuestionsBySubject(questions: seq<Question>, subject: string): (r: seq<Question>)
    ensures forall q :: q in r <==> q in questions && q.subject == Some(subject)
    ensures |r| <= |questions|
  {
    Filter(questions, HasSubject(subject))
  }

  lemma QuestionsBySubjectKeepsOrder(questions: seq<Question>, subject: string)
    ensures IsSubsequence(QuestionsBySubject(questions, subject), questions)
  {
    FilterIsSubsequence(questions, HasSubject(subject));
  }

  /**
   * `get_daily_mcqs`: the first `limit` questions (Python's `[:limit]`), of the given subject
   * when `subject` is a non-empty string and of the whole bank otherwise.
   */
  function DailyMcqs(questions: seq<Question>, subject: Option<string>, limit: int): (r: seq<Question>)
    ensures var n := if subject.Some? && subject.value != "" then |QuestionsBySubject(questions, subject.value)| else |questions|;
      0 <= limit ==> |r| == (if limit <= n then limit else n)
    ensures var n := if subject.Some? && subject.value != "" then |QuestionsBySubject(questions, subject.value)| else |questions|;
      limit < 0 ==> |r| == (if -limit <= n then n + limit else 0)
    ensures subject.Some? && subject.value != "" ==>
      |r| <= |QuestionsBySubject(questions, subject.value)| &&
      r == QuestionsBySubject(questions, subject.value)[..|r|] &&
      forall q :: q in r ==> q.subject == subject
    ensures subject.None? || subject == Some("") ==> |r| <= |questions| && r == questions[..|r|]
  {
    if subject.Some? && subject.value != "" then Take(QuestionsBySubject(questions, subject.value), limit)
    else Take(questions, limit)
  }

  /** A non-empty subject filter makes the daily set a prefix of that subject's questions, in order. */
  lemma DailyMcqsArePrefixOfSubject(questions: seq<Question>, subject: string, limit: nat)
    requires subject != ""
    ensures var r := DailyMcqs(questions, Some(subject), limit);
      var all := QuestionsBySubject(questions, subject);
      |r| == (if limit <= |all| then limit else |all|) && IsSubsequence(r, all)
  {
    var r := DailyMcqs(questions, Some(subject), limit);
    PrefixIsSubsequence(QuestionsBySubject(questions, subject), |r|);
  }

  /** Position `i` holds the first question with id `id`. */
  ghost predicate FirstWithId(questions: seq<Question>, id: string, i: int) {
    0 <= i < |questions| && questions[i].id == Some(id) &&
    forall j :: 0 <= j < i ==> questions[j].id != Some(id)
  }

  /**
   * The verdict on `selectedOption` for a found question: correct exactly when it is the stored
   * answer; a missing explanation or subject reads as "".
   */
  function AnswerOf(q: Question, selectedOption: string): (r: Validation)
    ensures r.Checked? && r.selectedOption == selectedOption && r.correctAnswer == q.correctAnswer
    ensures r.correct <==> q.correctAnswer == Some(selectedOption)
    ensures q.explanation.None? ==> r.explanation == ""
    ensures q.subject.None? ==> r.subject == ""
  {
    Checked(q.correctAnswer == Some(selectedOption), q.correctAnswer, selectedOption,
            q.explanation.GetOr(""), q.subject.GetOr(""))
  }

  class QuestionBank {
    /** The "questions" list of "mcqs.json" (a missing list reads as empty). */
    var questions: seq<Question>

    constructor (questions: seq<Question>)
      ensures this.questions == questions
    {
      this.questions := questions;
    }

    /** `get_question_by_id`: the first question whose id is `questionId`, or `None`. */
    method GetQuestionById(questionId: string) returns (r: Option<Question>)
      ensures r.None? <==> forall j :: 0 <= j < |questions| ==> questions[j].id != Some(questionId)
      ensures r.Some? ==> exists i :: FirstWithId(questions, questionId, i) && questions[i] == r.value
    {
      var i := 0;
      while i < |questions|
        invariant 0 <= i <= |questions|
        invariant forall j :: 0 <= j < i ==> questions[j].id != Some(questionId)
      {
        if questions[i].id == Some(questionId) {
          return Some(questions[i]);
        }
        i := i + 1;
      }
      return None;
    }

    /**
     * `validate_answer`: `NotFound` for an unknown id; otherwise whether `selectedOption` is the
     * stored answer, with explanation and subject defaulting to "".
     */
    method ValidateAnswer(questionId: string, selectedOption: string) returns (r: Validation)
      ensures r.NotFound? <==> forall j :: 0 <= j < |questions| ==> questions[j].id != Some(questionId)
      ensures r.NotFound? ==> r.error == QuestionNotFound
      ensures r.Checked? ==> exists i :: FirstWithId(questions, questionId, i) && AnswerOf(questions[i], selectedOption) == r
      ensures r.Checked? ==> r.selectedOption == selectedOption
    {
      var question := GetQuestionById(questionId);
      if question.None? {
        return NotFound(QuestionNotFound);
      }
      r := AnswerOf(question.value, selectedOption);
    }

    /**
     * `add_question`: the question, stamped with `now` as its creation time, goes at the end of
     * the bank; `written` is the store's report, and a failed write leaves the bank as it was.
     */
    method AddQuestion(question: Question, now: string, written: bool) returns (ok: bool)
      modifies this
      ensures ok == written
      ensures written ==> questions == old(questions) + [question.(createdAt := Some(now))]
      ensures !written ==> questions == old(questions)
    {
      var stamped := question.(createdAt := Some(now));
      if written {
        questions := questions + [stamped];
      }
      ok := written;
    }
  }
}
