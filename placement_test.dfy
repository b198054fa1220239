/** The placement wizard: an intro screen, then one question per step, then the answers go to the app. */
module PlacementTest {
  import opened Wrappers
  import opened Types

  /** How the progress dot of question `idx` is drawn. */
  datatype Dot = Current | Done | Ahead

  function DotAt(idx: nat, currentStep: nat): (d: Dot)
    ensures d == Current <==> idx == currentStep
    ensures d == Done <==> idx < currentStep
  {
    if idx == currentStep then Current else if idx < currentStep then Done else Ahead
  }

  class PlacementWizard {
    const exam: Exam
    var currentStep: nat
    var answers: Answers
    var isStarted: bool

    ghost predicate Valid()
      reads this
    {
      0 < |exam.questions| && currentStep < |exam.questions| && KeysAreQuestions(answers, exam.questions)
    }

    /** The wizard renders `exam.questions[currentStep]`, so it needs at least one question. */
    constructor (exam: Exam)
      requires |exam.questions| > 0
      ensures Valid() && this.exam == exam
      ensures currentStep == 0 && answers == map[] && !isStarted
    {
      this.exam := exam;
      currentStep := 0;
      answers := map[];
      isStarted := false;
    }

    /** The intro screen's start button. */
    method Start()
      requires Valid()
      modifies this`isStarted
      ensures Valid() && isStarted
    {
      isStarted := true;
    }

    function CurrentQuestion(): Question
      reads this
      requires Valid()
    {
      exam.questions[currentStep]
    }

    /** The next button is disabled while the current question has no answer or an empty text. */
    predicate NextEnabled()
      reads this
      requires Valid()
    {
      var id := CurrentQuestion().id;
      id in answers && answers[id] != Written("")
    }

    /** An option button stores its index under the current question's id. */
    method ChooseOption(idx: nat)
      requires Valid() && isStarted && CurrentQuestion().kind == MCQ
      requires CurrentQuestion().options.Some? && idx < |CurrentQuestion().options.value|
      modifies this`answers
      ensures Valid()
      ensures answers == old(answers)[CurrentQuestion().id := Choice(idx)]
    {
      answers := answers[exam.questions[currentStep].id := Choice(idx)];
    }

    /** The text box of an open question stores its text under the current question's id. */
    method WriteAnswer(text: string)
      requires Valid() && isStarted && CurrentQuestion().kind != MCQ
      modifies this`answers
      ensures Valid()
      ensures answers == old(answers)[CurrentQuestion().id := Written(text)]
    {
      answers := answers[exam.questions[currentStep].id := Written(text)];
    }

    /** The previous button, hidden on the first question. */
    method Previous()
      requires Valid() && isStarted && currentStep != 0
      modifies this`currentStep
      ensures Valid() && currentStep == old(currentStep) - 1
    {
      currentStep := currentStep - 1;
    }

    /** `handleNext`: moves on, or on the last question hands the answers over (they hold an answer to that
        question, and only answers to the exam's questions) and stays put. */
    method Next() returns (completed: Option<Answers>)
      requires Valid() && isStarted && NextEnabled()
      modifies this`currentStep
      ensures Valid()
      ensures old(currentStep) < |exam.questions| - 1 ==> currentStep == old(currentStep) + 1 && completed == None
      ensures old(currentStep) == |exam.questions| - 1 ==>
        currentStep == old(currentStep) && completed == Some(answers) &&
        exam.questions[|exam.questions| - 1].id in completed.value
    {
      if currentStep < |exam.questions| - 1 {
        currentStep := currentStep + 1;
        completed := None;
      } else {
        completed := Some(answers);
      }
    }
  }
}
