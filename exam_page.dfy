/** The exam page: automatic scoring of a finished attempt, the countdown display and question navigation. */
module ExamPage {
  import opened Wrappers
  import opened Types
  import opened Seqs
  import opened Constants

  // ---------------------------------------------------------------------------
  // Scoring

  /** `answers[q.id] === q.correctOption` with JavaScript's strict equality: a chosen index equal to the key,
      or (on a question without a key) no recorded answer at all. */
  predicate AnsweredCorrectly(q: Question, answers: Answers) {
    if q.id in answers then answers[q.id].Choice? && q.correctOption == Some(answers[q.id].index)
    else q.correctOption.None?
  }

  /** The number of multiple-choice questions (the loop's `mcqCount`). */
  function McqCount(qs: seq<Question>): (n: nat)
    ensures n <= |qs|
  {
    if qs == [] then 0
    else McqCount(qs[..|qs| - 1]) + (if qs[|qs| - 1].kind == MCQ then 1 else 0)
  }

  /** The number of multiple-choice questions answered correctly (the loop's `mcqScore`). */
  function McqCorrect(qs: seq<Question>, answers: Answers): (n: nat)
    ensures n <= McqCount(qs)
  {
    if qs == [] then 0
    else McqCorrect(qs[..|qs| - 1], answers)
         + (if qs[|qs| - 1].kind == MCQ && AnsweredCorrectly(qs[|qs| - 1], answers) then 1 else 0)
  }

  /** Whether some question is not multiple-choice (the loop's `hasDescriptive`). */
  predicate HasDescriptive(qs: seq<Question>) {
    if qs == [] then false else HasDescriptive(qs[..|qs| - 1]) || qs[|qs| - 1].kind != MCQ
  }

  /** The score `handleFinish` reports: none while an open question awaits a teacher, the percentage of
      correct multiple-choice answers otherwise, and 100 for an exam without questions. */
  function FinalScore(qs: seq<Question>, answers: Answers): Option<real> {
    if HasDescriptive(qs) then None
    else if McqCount(qs) > 0 then Some(McqCorrect(qs, answers) as real / McqCount(qs) as real * 100.0)
    else Some(100.0)
  }

  /** The arguments `handleFinish` passes to `onComplete`. */
  datatype Completion = Completion(examId: string, answers: Answers, score: Option<real>)

  /** `handleFinish`: one pass over the questions counting multiple-choice questions and correct answers and
      noting any open question; the exam id and the answers are passed on unchanged. */
  method HandleFinish(exam: Exam, answers: Answers) returns (c: Completion)
    ensures c == Completion(exam.id, answers, FinalScore(exam.questions, answers))
  {
    var qs := exam.questions;
    var mcqScore, mcqCount, hasDescriptive := 0, 0, false;
    for i := 0 to |qs|
      invariant mcqCount == McqCount(qs[..i])
      invariant mcqScore == McqCorrect(qs[..i], answers)
      invariant hasDescriptive == HasDescriptive(qs[..i])
    {
      ScoringStep(qs, i, answers);
      var q := qs[i];
      if q.kind == MCQ {
        mcqCount := mcqCount + 1;
        if AnsweredCorrectly(q, answers) {
          mcqScore := mcqScore + 1;
        }
      } else {
        hasDescriptive := true;
      }
    }
    assert qs[..|qs|] == qs;
    var finalScore := if hasDescriptive then None
                      else if mcqCount > 0 then Some(mcqScore as real / mcqCount as real * 100.0)
                      else Some(100.0);
    c := Completion(exam.id, answers, finalScore);
  }

  /** How one more question moves the loop's counters. */
  lemma ScoringStep(qs: seq<Question>, i: nat, answers: Answers)
    requires i < |qs|
    ensures McqCount(qs[..i + 1]) == McqCount(qs[..i]) + (if qs[i].kind == MCQ then 1 else 0)
    ensures McqCorrect(qs[..i + 1], answers) ==
      McqCorrect(qs[..i], answers) + (if qs[i].kind == MCQ && AnsweredCorrectly(qs[i], answers) then 1 else 0)
    ensures HasDescriptive(qs[..i + 1]) == (HasDescriptive(qs[..i]) || qs[i].kind != MCQ)
  {
    assert qs[..i + 1][..i] == qs[..i];
  }

  /** An open question is present exactly when some question is not multiple-choice. */
  lemma {:induction false} HasDescriptiveIff(qs: seq<Question>)
    ensures HasDescriptive(qs) <==> exists i :: 0 <= i < |qs| && qs[i].kind != MCQ
  {
    if qs != [] {
      var init := qs[..|qs| - 1];
      HasDescriptiveIff(init);
      if HasDescriptive(init) {
        var i :| 0 <= i < |init| && init[i].kind != MCQ;
        assert qs[i] == init[i];
      }
      if exists i :: 0 <= i < |qs| && qs[i].kind != MCQ {
        var i :| 0 <= i < |qs| && qs[i].kind != MCQ;
        if i < |init| { assert init[i] == qs[i]; }
      }
    }
  }

  /** In an exam without open questions every question is multiple-choice. */
  lemma {:induction false} McqOnlyCount(qs: seq<Question>)
    requires !HasDescriptive(qs)
    ensures McqCount(qs) == |qs|
  {
    if qs != [] {
      McqOnlyCount(qs[..|qs| - 1]);
    }
  }

  /** The score is undefined exactly when the exam holds a question that is not multiple-choice. */
  lemma ScoreUndefinedIffDescriptive(qs: seq<Question>, answers: Answers)
    ensures FinalScore(qs, answers).None? <==> exists i :: 0 <= i < |qs| && qs[i].kind != MCQ
  {
    HasDescriptiveIff(qs);
  }

  /** For a multiple-choice-only exam of N > 0 questions with k correct answers, the score is k / N * 100. */
  lemma McqOnlyScore(qs: seq<Question>, answers: Answers)
    requires forall i :: 0 <= i < |qs| ==> qs[i].kind == MCQ
    requires |qs| > 0
    ensures FinalScore(qs, answers) == Some(McqCorrect(qs, answers) as real / |qs| as real * 100.0)
  {
    HasDescriptiveIff(qs);
    McqOnlyCount(qs);
  }

  /** An exam without questions scores 100. */
  lemma EmptyExamScoresFull(answers: Answers)
    ensures FinalScore([], answers) == Some(100.0)
  {
  }

  /** A defined score is a percentage: it lies in [0, 100]. */
  lemma ScoreInRange(qs: seq<Question>, answers: Answers)
    ensures FinalScore(qs, answers).Some? ==> 0.0 <= FinalScore(qs, answers).value <= 100.0
  {
    if !HasDescriptive(qs) && McqCount(qs) > 0 {
      PercentBounds(McqCorrect(qs, answers) as real, McqCount(qs) as real);
    }
  }

  lemma PercentBounds(k: real, n: real)
    requires 0.0 <= k <= n && n > 0.0
    ensures 0.0 <= k / n * 100.0 <= 100.0
  {
    assert k / n * n == k;
  }

  /** A missing answer never matches a question that has a key. */
  lemma MissingAnswerNeverCorrect(q: Question, answers: Answers)
    requires q.correctOption.Some? && q.id !in answers
    ensures !AnsweredCorrectly(q, answers)
  {
  }

  /** With an empty answer sheet and a key on every question, no answer is counted correct. */
  lemma {:induction false} BlankSheetScoresNothing(qs: seq<Question>)
    requires forall i :: 0 <= i < |qs| ==> qs[i].correctOption.Some?
    ensures McqCorrect(qs, map[]) == 0
  {
    if qs != [] {
      BlankSheetScoresNothing(qs[..|qs| - 1]);
    }
  }

  /** Strict equality also matches an unset answer to an unset key: such a question counts as correct unanswered. */
  lemma UnsetKeyMatchesMissingAnswer(q: Question, answers: Answers)
    requires q.correctOption.None? && q.id !in answers
    ensures AnsweredCorrectly(q, answers)
  {
  }

  /** The placement exam mixes a multiple-choice and an open question, so this page would leave it ungraded. */
  lemma PlacementExamNeedsTeacher(answers: Answers)
    ensures FinalScore(PLACEMENT_EXAM.questions, answers) == None
  {
    assert PLACEMENT_EXAM.questions[1].kind != MCQ;
    HasDescriptiveIff(PLACEMENT_EXAM.questions);
  }

  // ---------------------------------------------------------------------------
  // The countdown display `m:ss`

  predicate IsDigit(c: char) {
    '0' <= c <= '9'
  }

  predicate AllDigits(s: string) {
    forall i :: 0 <= i < |s| ==> IsDigit(s[i])
  }

  predicate IsColon(c: char) {
    c == ':'
  }

  function DigitChar(d: nat): char
    requires d < 10
  {
    ('0' as int + d) as char
  }

  /** The decimal digits of `n`, without leading zeros (JavaScript's `${n}` for a natural number). */
  function NatToString(n: nat): (s: string)
    ensures |s| >= 1 && AllDigits(s)
  {
    if n < 10 then [DigitChar(n)] else NatToString(n / 10) + [DigitChar(n % 10)]
  }

  /** The value of a string of decimal digits. */
  function DigitsValue(s: string): nat
    requires AllDigits(s)
  {
    if s == [] then 0 else DigitsValue(s[..|s| - 1]) * 10 + (s[|s| - 1] as int - '0' as int)
  }

  /** Reading back the digits of `n` gives `n`. */
  lemma {:induction false} NatToStringValue(n: nat)
    ensures DigitsValue(NatToString(n)) == n
  {
    if n >= 10 {
      NatToStringValue(n / 10);
      var s := NatToString(n);
      assert s[..|s| - 1] == NatToString(n / 10);
    }
  }

  /** `formatTime`: whole minutes, a colon, then the seconds padded to two digits. */
  function FormatTime(seconds: nat): string {
    var m, s := seconds / 60, seconds % 60;
    NatToString(m) + ":" + (if s < 10 then "0" else "") + NatToString(s)
  }

  /** Reads a `m:ss` display back into seconds; `None` for anything else. */
  function ParseTime(t: string): Option<nat> {
    match FindIndex(t, IsColon)
    case None => None
    case Some(k) =>
      var mins, secs := t[..k], t[k + 1..];
      if |mins| >= 1 && |secs| == 2 && AllDigits(mins) && AllDigits(secs) && DigitsValue(secs) < 60
      then Some(DigitsValue(mins) * 60 + DigitsValue(secs))
      else None
  }

  /** The seconds part always has two digits, with a leading '0' exactly when fewer than ten seconds remain. */
  lemma FormatTimeShape(seconds: nat)
    ensures var t, k := FormatTime(seconds), |NatToString(seconds / 60)|;
      |t| == k + 3 && t[k] == ':' && (t[k + 1] == '0' <==> seconds % 60 < 10)
  {
    var s := seconds % 60;
    if s >= 10 {
      assert NatToString(s) == NatToString(s / 10) + [DigitChar(s % 10)];
    }
  }

  /** The first colon of `a + ":" + p`, with `a` all digits, sits right after `a`. */
  lemma ColonAt(a: string, p: string)
    requires AllDigits(a)
    ensures var t := a + ":" + p;
      FindIndex(t, IsColon) == Some(|a|) && t[..|a|] == a && t[|a| + 1..] == p
  {
    var t := a + ":" + p;
    assert t == a + ([':'] + p);
    FindIndexAppend(a, [':'] + p, IsColon);
    assert FindIndex(a, IsColon).None? by {
      forall x | x in a ensures !IsColon(x) {
        var j :| 0 <= j < |a| && a[j] == x;
      }
    }
  }

  /** A display made of minute digits, a colon and two second digits reads back as minutes * 60 + seconds. */
  lemma ParseTimeOf(a: string, p: string)
    requires |a| >= 1 && AllDigits(a) && |p| == 2 && AllDigits(p) && DigitsValue(p) < 60
    ensures ParseTime(a + ":" + p) == Some(DigitsValue(a) * 60 + DigitsValue(p))
  {
    ColonAt(a, p);
  }

  /** The padded seconds part has two digits and reads back as the seconds. */
  lemma PaddedSeconds(s: nat)
    requires s < 60
    ensures var p := (if s < 10 then "0" else "") + NatToString(s);
      |p| == 2 && AllDigits(p) && DigitsValue(p) == s
  {
    var p := (if s < 10 then "0" else "") + NatToString(s);
    NatToStringValue(s);
    if s < 10 {
      assert p[..1] == "0";
    } else {
      assert NatToString(s) == NatToString(s / 10) + [DigitChar(s % 10)];
    }
  }

  /** `formatTime` loses nothing: the display reads back as the number of seconds it was made from. */
  lemma FormatTimeRoundTrip(seconds: nat)
    ensures ParseTime(FormatTime(seconds)) == Some(seconds)
  {
    var m, s := seconds / 60, seconds % 60;
    var p := (if s < 10 then "0" else "") + NatToString(s);
    assert FormatTime(seconds) == NatToString(m) + ":" + p;
    PaddedSeconds(s);
    NatToStringValue(m);
    ParseTimeOf(NatToString(m), p);
  }

  // ---------------------------------------------------------------------------
  // Navigation through the questions

  /** The page's state while an exam is open: the current question and the answers given so far. */
  class ExamSession {
    const exam: Exam
    var currentStep: nat
    var answers: Answers

    ghost predicate Valid()
      reads this
    {
      0 < |exam.questions| && currentStep < |exam.questions| && KeysAreQuestions(answers, exam.questions)
    }

    /** The page renders `exam.questions[currentStep]`, so it needs at least one question. */
    constructor (exam: Exam)
      requires |exam.questions| > 0
      ensures Valid() && this.exam == exam
      ensures currentStep == 0 && answers == map[]
    {
      this.exam := exam;
      currentStep := 0;
      answers := map[];
    }

    function CurrentQuestion(): Question
      reads this
      requires Valid()
    {
      exam.questions[currentStep]
    }

    /** The Next/Submit button is enabled once the current question has a non-empty answer. */
    predicate NextEnabled()
      reads this
      requires Valid()
    {
      var id := CurrentQuestion().id;
      id in answers && answers[id] != Written("")
    }

    /** Clicking option `idx` of a multiple-choice question records that index and touches no other answer. */
    method ChooseOption(idx: nat)
      requires Valid() && CurrentQuestion().kind == MCQ
      requires CurrentQuestion().options.Some? && idx < |CurrentQuestion().options.value|
      modifies this`answers
      ensures Valid()
      ensures answers == old(answers)[CurrentQuestion().id := Choice(idx)]
    {
      answers := answers[exam.questions[currentStep].id := Choice(idx)];
    }

    /** Typing into the answer box of an open question records the text and touches no other answer. */
    method WriteAnswer(text: string)
      requires Valid() && CurrentQuestion().kind != MCQ
      modifies this`answers
      ensures Valid()
      ensures answers == old(answers)[CurrentQuestion().id := Written(text)]
    {
      answers := answers[exam.questions[currentStep].id := Written(text)];
    }

    /** The Previous button, disabled on the first question. */
    method Previous()
      requires Valid() && currentStep != 0
      modifies this`currentStep
      ensures Valid() && currentStep == old(currentStep) - 1
    {
      currentStep := currentStep - 1;
    }

    /** The Next button: on the last question it finishes the exam and stays put, otherwise it moves on. */
    method Next() returns (finished: Option<Completion>)
      requires Valid() && NextEnabled()
      modifies this`currentStep
      ensures Valid()
      ensures old(currentStep) == |exam.questions| - 1 ==>
        currentStep == old(currentStep) &&
        finished == Some(Completion(exam.id, answers, FinalScore(exam.questions, answers)))
      ensures old(currentStep) < |exam.questions| - 1 ==>
        currentStep == old(currentStep) + 1 && finished == None
    {
      if currentStep == |exam.questions| - 1 {
        var c := HandleFinish(exam, answers);
        finished := Some(c);
      } else {
        currentStep := currentStep + 1;
        finished := None;
      }
    }

    /** The countdown reaching zero finishes the exam with whatever has been answered. */
    method Expire() returns (c: Completion)
      requires Valid()
      ensures c == Completion(exam.id, answers, FinalScore(exam.questions, answers))
    {
      c := HandleFinish(exam, answers);
    }
  }
}
