/** The entities of the platform: users, content, exams, attempts and alerts. */
module Types {
  import opened Wrappers

  datatype UserRole = Citizen | Teacher | Admin

  /** One entry of a user's score history. */
  datatype ScoreRecord = ScoreRecord(contentId: string, score: real, date: string)

  /** A user. `level` 0 means a citizen who has not taken the placement test yet. */
  datatype User = User(
    id: string,
    name: string,
    email: string,
    role: UserRole,
    level: int,
    scoreHistory: seq<ScoreRecord>,
    xp: int)

  datatype ContentType = Text | Video | Scenario

  /** A choice inside a scenario step; `impact` is signed, a missing `nextStepId` ends the branch. */
  datatype ScenarioOption = ScenarioOption(text: string, nextStepId: Option<string>, impact: int, feedback: string)

  datatype ScenarioStep = ScenarioStep(id: string, text: string, options: seq<ScenarioOption>)

  /** A learning item. Its payload fields are all optional, whatever its kind. */
  datatype Content = Content(
    id: string,
    title: string,
    description: string,
    kind: ContentType,
    minLevel: int,
    maxLevel: int,
    durationMinutes: int,
    authorId: string,
    isActive: bool,
    body: Option<string>,
    videoUrl: Option<string>,
    scenarioSteps: Option<seq<ScenarioStep>>)

  datatype QuestionType = MCQ | Descriptive

  /** A question; `options` and `correctOption` are optional whatever its type. */
  datatype Question = Question(
    id: string,
    text: string,
    kind: QuestionType,
    options: Option<seq<string>>,
    correctOption: Option<int>)

  /** The bounds consistency the type itself does not enforce: a multiple-choice question names one of its options. */
  predicate WellFormedQuestion(q: Question) {
    q.kind == MCQ ==>
      q.options.Some? && q.correctOption.Some? && 0 <= q.correctOption.value < |q.options.value|
  }

  datatype Exam = Exam(
    id: string,
    contentId: string,
    title: string,
    questions: seq<Question>,
    isActive: bool,
    timeLimit: int)

  /** A recorded answer: the index of a chosen option, or free text. */
  datatype AnswerValue = Choice(index: int) | Written(text: string)

  /** The answers of one attempt, keyed by question id. */
  type Answers = map<string, AnswerValue>

  /** Every answer is keyed by the id of one of the exam's questions. */
  ghost predicate KeysAreQuestions(answers: Answers, questions: seq<Question>) {
    forall k :: k in answers ==> exists i :: 0 <= i < |questions| && questions[i].id == k
  }

  /** One submission; `score` is optional and `isGraded` is a separate flag. */
  datatype Attempt = Attempt(
    id: string,
    userId: string,
    examId: string,
    answers: Answers,
    score: Option<real>,
    isGraded: bool,
    date: string)

  datatype Severity = Low | Medium | High

  datatype SystemAlert = SystemAlert(id: string, title: string, message: string, severity: Severity, date: string)

  /** The id of the placement exam; attempts on it never count toward a level-up. */
  const PLACEMENT_ID: string := "placement"

  /** `curr.score || 0`: an attempt's score, with a missing score read as 0. */
  function ScoreOrZero(a: Attempt): real {
    a.score.GetOr(0.0)
  }

  /** The `reduce((acc, curr) => acc + (curr.score || 0), 0)` the pages use for averages. */
  function TotalScore(attempts: seq<Attempt>): real {
    if attempts == [] then 0.0 else ScoreOrZero(attempts[0]) + TotalScore(attempts[1..])
  }

  /** A bound on every score bounds the total. */
  lemma {:induction false} TotalScoreBounds(attempts: seq<Attempt>, lo: real, hi: real)
    requires forall a :: a in attempts ==> lo <= ScoreOrZero(a) <= hi
    ensures lo * |attempts| as real <= TotalScore(attempts) <= hi * |attempts| as real
  {
    if attempts != [] {
      TotalScoreBounds(attempts[1..], lo, hi);
      assert attempts[0] in attempts;
    }
  }

  /** If no score exceeds `hi`, the total is at most `hi` times the count (the bound the level-up rule needs). */
  lemma {:induction false} TotalScoreAtMost(attempts: seq<Attempt>, hi: real)
    requires forall a :: a in attempts ==> ScoreOrZero(a) <= hi
    ensures TotalScore(attempts) <= hi * |attempts| as real
  {
    if attempts != [] {
      TotalScoreAtMost(attempts[1..], hi);
      assert attempts[0] in attempts;
    }
  }
}
