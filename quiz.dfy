/**
 * The quiz page's session: a current question index, the answers chosen so
 * far (question id to option id), a completed flag and a percentage score,
 * with the select, next, previous and restart transitions, the scoring
 * count and the results record offered for download.
 */
module Quiz {
  import opened Wrappers

  datatype AnswerOption = AnswerOption(id: string, text: string)

  datatype Question = Question(id: string, text: string, options: seq<AnswerOption>, correctAnswer: string)

  /** The quiz the page ships with. */
  const SampleQuestions: seq<Question> := [
    Question("q1", "Who is known for classical conditioning experiments with dogs?",
      [AnswerOption("a", "B.F. Skinner"), AnswerOption("b", "Ivan Pavlov"), AnswerOption("c", "Sigmund Freud"), AnswerOption("d", "Carl Jung")], "b"),
    Question("q2", "Which of the following is NOT a component of working memory according to Baddeley and Hitch?",
      [AnswerOption("a", "Phonological loop"), AnswerOption("b", "Visuospatial sketchpad"), AnswerOption("c", "Semantic analyzer"), AnswerOption("d", "Central executive")], "c"),
    Question("q3", "Cognitive dissonance refers to:",
      [AnswerOption("a", "The inability to focus on multiple tasks"), AnswerOption("b", "Mental discomfort from conflicting beliefs"),
       AnswerOption("c", "A learning disability affecting cognition"), AnswerOption("d", "The process of forgetting information")], "b"),
    Question("q4", "Which level is at the top of Maslow's Hierarchy of Needs?",
      [AnswerOption("a", "Safety needs"), AnswerOption("b", "Esteem needs"), AnswerOption("c", "Self-actualization"), AnswerOption("d", "Physiological needs")], "c"),
    Question("q5", "Operant conditioning involves learning through:",
      [AnswerOption("a", "Association of stimuli"), AnswerOption("b", "Rewards and punishments"), AnswerOption("c", "Observation of others"), AnswerOption("d", "Unconscious processes")], "b")
  ]

  /** `selectedAnswers[q.id] === q.correctAnswer`: a missing answer is never correct. */
  predicate AnsweredCorrectly(q: Question, answers: map<string, string>) {
    q.id in answers && answers[q.id] == q.correctAnswer
  }

  /** The results view's `questions.filter(...)`: the correctly answered questions, in quiz order. */
  function CorrectQuestions(questions: seq<Question>, answers: map<string, string>): (r: seq<Question>)
    ensures |r| <= |questions|
    ensures forall q :: q in r <==> q in questions && AnsweredCorrectly(q, answers)
  {
    if questions == [] then []
    else (if AnsweredCorrectly(questions[0], answers) then [questions[0]] else []) + CorrectQuestions(questions[1..], answers)
  }

  lemma {:induction false} CorrectQuestionsAppend(a: seq<Question>, b: seq<Question>, answers: map<string, string>)
    ensures CorrectQuestions(a + b, answers) == CorrectQuestions(a, answers) + CorrectQuestions(b, answers)
  {
    if a == [] {
      assert a + b == b;
    } else {
      assert (a + b)[1..] == a[1..] + b;
      CorrectQuestionsAppend(a[1..], b, answers);
    }
  }

  /** Every question counts exactly when every question is answered correctly. */
  lemma {:induction false} AllCorrectIff(questions: seq<Question>, answers: map<string, string>)
    ensures |CorrectQuestions(questions, answers)| == |questions| <==>
            forall i :: 0 <= i < |questions| ==> AnsweredCorrectly(questions[i], answers)
  {
    if questions != [] {
      AllCorrectIff(questions[1..], answers);
      var rest := CorrectQuestions(questions[1..], answers);
      assert |rest| <= |questions| - 1;
      if forall i :: 0 <= i < |questions| - 1 ==> AnsweredCorrectly(questions[1..][i], answers) {
        assert forall i :: 1 <= i < |questions| ==> AnsweredCorrectly(questions[i], answers) by {
          forall i | 1 <= i < |questions| ensures AnsweredCorrectly(questions[i], answers) {
            assert questions[i] == questions[1..][i - 1];
          }
        }
      } else {
        var j :| 0 <= j < |questions| - 1 && !AnsweredCorrectly(questions[1..][j], answers);
        assert !AnsweredCorrectly(questions[j + 1], answers);
      }
    }
  }

  /** No question counts exactly when none is answered correctly. */
  lemma {:induction false} NoneCorrectIff(questions: seq<Question>, answers: map<string, string>)
    ensures |CorrectQuestions(questions, answers)| == 0 <==>
            forall i :: 0 <= i < |questions| ==> !AnsweredCorrectly(questions[i], answers)
  {
    if |CorrectQuestions(questions, answers)| != 0 {
      var q := CorrectQuestions(questions, answers)[0];
      assert q in CorrectQuestions(questions, answers);
      var i :| 0 <= i < |questions| && questions[i] == q;
    } else {
      forall i | 0 <= i < |questions| ensures !AnsweredCorrectly(questions[i], answers) {
        assert questions[i] in questions;
      }
    }
  }

  /**
   * The scoring loop: counts the questions whose selected answer is the
   * correct one. It agrees with the count the results view shows.
   */
  method CountCorrect(questions: seq<Question>, answers: map<string, string>) returns (correctAnswers: nat)
    ensures correctAnswers == |CorrectQuestions(questions, answers)|
  {
    correctAnswers := 0;
    var i := 0;
    while i < |questions|
      invariant 0 <= i <= |questions|
      invariant correctAnswers == |CorrectQuestions(questions[..i], answers)|
    {
      var question := questions[i];
      assert questions[..i + 1] == questions[..i] + [question];
      CorrectQuestionsAppend(questions[..i], [question], answers);
      if question.id in answers && answers[question.id] == question.correctAnswer {
        correctAnswers := correctAnswers + 1;
      }
      i := i + 1;
    }
    assert questions[..i] == questions;
  }

  lemma MulLeft(n: int, a: int, b: int)
    requires n >= 0 && a <= b
    ensures n * a <= n * b
  {
    assert n * b - n * a == n * (b - a);
  }

  /**
   * `Math.round(correct / total * 100)` computed exactly: the integer
   * nearest to 100 * correct / total, a tie rounding up.
   */
  function ScorePercent(correct: nat, total: nat): (r: int)
    requires 0 < total && correct <= total
    ensures 0 <= r <= 100
    ensures -(total as int) <= 200 * correct - 2 * total * r < total
  {
    var x, d := 200 * correct + total, 2 * total;
    var r := x / d;
    assert d * r + x % d == x;
    assert r <= 100 by {
      if r > 100 {
        MulLeft(d, 101, r);
      }
    }
    assert r >= 0 by {
      if r < 0 {
        MulLeft(d, r, -1);
      }
    }
    r
  }

  /** At most one integer is that close to 100 * correct / total. */
  lemma NearestUnique(correct: nat, total: nat, r: int, r': int)
    requires 0 < total
    requires -(total as int) <= 200 * correct - 2 * total * r < total
    requires -(total as int) <= 200 * correct - 2 * total * r' < total
    ensures r == r'
  {
    if r < r' {
      MulLeft(2 * total, r + 1, r');
    } else if r' < r {
      MulLeft(2 * total, r' + 1, r);
    }
  }

  /** Rounding is monotonic: more correct answers never lower the score. */
  lemma ScoreMonotonic(c1: nat, c2: nat, total: nat)
    requires 0 < total && c1 <= c2 <= total
    ensures ScorePercent(c1, total) <= ScorePercent(c2, total)
  {
    var r1, r2 := ScorePercent(c1, total), ScorePercent(c2, total);
    if r1 > r2 {
      MulLeft(2 * total, r2 + 1, r1);
    }
  }

  /** With fewer than 200 questions the score is 100 exactly when every answer is correct. */
  lemma PerfectScoreIff(correct: nat, total: nat)
    requires 0 < total < 200 && correct <= total
    ensures ScorePercent(correct, total) == 100 <==> correct == total
  {
    if correct == total {
      NearestUnique(correct, total, ScorePercent(correct, total), 100);
    }
  }

  /** With at most 200 questions the score is 0 exactly when no answer is correct. */
  lemma ZeroScoreIff(correct: nat, total: nat)
    requires 0 < total <= 200 && correct <= total
    ensures ScorePercent(correct, total) == 0 <==> correct == 0
  {
    if correct == 0 {
      NearestUnique(correct, total, ScorePercent(correct, total), 0);
    }
  }

  /** Beyond those sizes rounding blurs the ends: one wrong answer in 200 still scores 100, one right in 201 scores 0. */
  lemma RoundingAtTheEnds()
    ensures ScorePercent(199, 200) == 100
    ensures ScorePercent(1, 201) == 0
  {
  }

  /** The shipped quiz has five questions, so each correct answer is worth exactly 20 points. */
  lemma SampleScores(correct: nat)
    requires correct <= |SampleQuestions|
    ensures ScorePercent(correct, |SampleQuestions|) == 20 * correct
  {
  }

  /** One entry of the downloadable results: texts the lookups may not find, and whether the answer was right. */
  datatype AnswerResult = AnswerResult(question: Option<string>, selectedAnswer: Option<string>, correctAnswer: Option<string>, isCorrect: bool)

  datatype QuizResults = QuizResults(title: string, totalQuestions: nat, score: int, answers: map<string, AnswerResult>)

  /** `questions.find(q => q.id === id)`. */
  function FindQuestion(questions: seq<Question>, id: string): (r: Option<Question>)
    ensures r.Some? ==> r.value in questions && r.value.id == id
    ensures r.None? ==> forall q :: q in questions ==> q.id != id
  {
    if questions == [] then None
    else if questions[0].id == id then Some(questions[0])
    else FindQuestion(questions[1..], id)
  }

  /** `options.find(o => o.id === id)?.text`. */
  function OptionText(options: seq<AnswerOption>, id: string): (r: Option<string>)
    ensures r.Some? ==> exists o :: o in options && o.id == id && o.text == r.value
    ensures r.None? ==> forall o :: o in options ==> o.id != id
  {
    if options == [] then None
    else if options[0].id == id then Some(options[0].text)
    else OptionText(options[1..], id)
  }

  /** The results entry for one answered question. */
  function ResultFor(questions: seq<Question>, questionId: string, answer: string): AnswerResult {
    match FindQuestion(questions, questionId)
    case None => AnswerResult(None, None, None, false)
    case Some(q) => AnswerResult(Some(q.text), OptionText(q.options, answer), OptionText(q.options, q.correctAnswer), answer == q.correctAnswer)
  }

  /** `Object.entries(selectedAnswers).map(...)`: one entry per answered question. */
  function ResultAnswers(questions: seq<Question>, answers: map<string, string>): (r: map<string, AnswerResult>)
    ensures r.Keys == answers.Keys
  {
    map qid | qid in answers :: ResultFor(questions, qid, answers[qid])
  }

  ghost predicate UniqueQuestionIds(questions: seq<Question>) {
    forall i, j :: 0 <= i < j < |questions| ==> questions[i].id != questions[j].id
  }

  /**
   * The results record and the score agree question by question: a quiz
   * question has an entry exactly when it was answered, and the entry is
   * marked correct exactly when the scoring counts it.
   */
  lemma ResultsAgreeWithScoring(questions: seq<Question>, answers: map<string, string>, i: int)
    requires UniqueQuestionIds(questions) && 0 <= i < |questions|
    ensures questions[i].id in ResultAnswers(questions, answers) <==> questions[i].id in answers
    ensures questions[i].id in answers ==>
      (ResultAnswers(questions, answers)[questions[i].id].isCorrect <==> AnsweredCorrectly(questions[i], answers))
    ensures AnsweredCorrectly(questions[i], answers) <==> questions[i] in CorrectQuestions(questions, answers)
  {
    FindUnique(questions, i);
  }

  lemma {:induction false} FindUnique(questions: seq<Question>, i: int)
    requires UniqueQuestionIds(questions) && 0 <= i < |questions|
    ensures FindQuestion(questions, questions[i].id) == Some(questions[i])
  {
    if i > 0 {
      assert questions[0].id != questions[i].id;
      assert questions[1..][i - 1] == questions[i];
      FindUnique(questions[1..], i - 1);
    }
  }

  class QuizSession {
    const questions: seq<Question>
    var currentIndex: int
    var selectedAnswers: map<string, string>
    var quizCompleted: bool
    var score: int

    /** The index points at a question and the score is a percentage. */
    ghost predicate Valid()
      reads this
    {
      0 <= currentIndex < |questions| && 0 <= score <= 100
    }

    constructor(questions: seq<Question>)
      requires |questions| > 0
      ensures Valid() && this.questions == questions
      ensures currentIndex == 0 && selectedAnswers == map[] && !quizCompleted && score == 0
    {
      this.questions := questions;
      currentIndex := 0;
      selectedAnswers := map[];
      quizCompleted := false;
      score := 0;
    }

    /** `handleAnswerSelect`: records the answer for the current question only. */
    method SelectAnswer(value: string)
      requires Valid() && !quizCompleted
      modifies this
      ensures Valid()
      ensures selectedAnswers == old(selectedAnswers)[questions[currentIndex].id := value]
      ensures forall qid :: qid != questions[currentIndex].id ==>
        (qid in selectedAnswers <==> qid in old(selectedAnswers)) &&
        (qid in selectedAnswers ==> selectedAnswers[qid] == old(selectedAnswers)[qid])
      ensures currentIndex == old(currentIndex) && quizCompleted == old(quizCompleted) && score == old(score)
    {
      selectedAnswers := selectedAnswers[questions[currentIndex].id := value];
    }

    /**
     * `handleNextQuestion`, enabled only once the current question has a
     * non-empty answer: moves forward, or on the last question scores the
     * quiz and completes it.
     */
    method NextQuestion()
      requires Valid() && !quizCompleted
      requires questions[currentIndex].id in selectedAnswers && selectedAnswers[questions[currentIndex].id] != ""
      modifies this
      ensures Valid()
      ensures selectedAnswers == old(selectedAnswers)
      ensures old(currentIndex) < |questions| - 1 ==>
        currentIndex == old(currentIndex) + 1 && !quizCompleted && score == old(score)
      ensures old(currentIndex) == |questions| - 1 ==>
        currentIndex == old(currentIndex) && quizCompleted &&
        score == ScorePercent(|CorrectQuestions(questions, selectedAnswers)|, |questions|)
    {
      if currentIndex < |questions| - 1 {
        currentIndex := currentIndex + 1;
      } else {
        var correctAnswers := CountCorrect(questions, selectedAnswers);
        var finalScore := ScorePercent(correctAnswers, |questions|);
        score := finalScore;
        quizCompleted := true;
      }
    }

    /** `handlePreviousQuestion`: moves back unless at the first question. */
    method PreviousQuestion()
      requires Valid() && !quizCompleted
      modifies this
      ensures Valid()
      ensures currentIndex == if old(currentIndex) > 0 then old(currentIndex) - 1 else 0
      ensures selectedAnswers == old(selectedAnswers) && quizCompleted == old(quizCompleted) && score == old(score)
    {
      if currentIndex > 0 {
        currentIndex := currentIndex - 1;
      }
    }

    /** `handleRestartQuiz`: back to the first question with nothing answered. */
    method RestartQuiz()
      requires Valid()
      modifies this
      ensures Valid()
      ensures currentIndex == 0 && selectedAnswers == map[] && !quizCompleted && score == 0
    {
      currentIndex := 0;
      selectedAnswers := map[];
      quizCompleted := false;
      score := 0;
    }

    /** The `quizResults` record offered for download. */
    function Results(title: string): (r: QuizResults)
      reads this
      ensures r.totalQuestions == |questions| && r.score == score
      ensures r.answers.Keys == selectedAnswers.Keys
    {
      QuizResults(title, |questions|, score, ResultAnswers(questions, selectedAnswers))
    }
  }
}
