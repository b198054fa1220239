/** The teacher panel: the grading queue, the average and chart, grading, and authoring content and exams. */
module TeacherPanel {
  import opened Wrappers
  import opened Types
  import opened Seqs

  // ---------------------------------------------------------------------------
  // Views over the attempts and contents

  predicate IsPending(a: Attempt) {
    !a.isGraded
  }

  predicate IsGraded(a: Attempt) {
    a.isGraded
  }

  /** `pendingAttempts`: the grading queue. */
  function PendingAttempts(attempts: seq<Attempt>): seq<Attempt> {
    Filter(attempts, IsPending)
  }

  /** `gradedAttempts`. */
  function GradedAttempts(attempts: seq<Attempt>): seq<Attempt> {
    Filter(attempts, IsGraded)
  }

  /** The queue and the graded list split the attempts between them, each attempt in exactly one. */
  lemma PendingGradedPartition(attempts: seq<Attempt>)
    ensures forall a :: a in attempts ==> (a in PendingAttempts(attempts) <==> a !in GradedAttempts(attempts))
    ensures multiset(PendingAttempts(attempts)) + multiset(GradedAttempts(attempts)) == multiset(attempts)
  {
    FilterComplement(attempts, IsPending, IsGraded);
  }

  function AuthoredBy(authorId: string): Content -> bool {
    (c: Content) => c.authorId == authorId
  }

  /** `teacherContents`: exactly the items this teacher wrote. */
  function TeacherContents(contents: seq<Content>, teacher: User): (r: seq<Content>)
    ensures forall c :: c in r <==> c in contents && c.authorId == teacher.id
  {
    Filter(contents, AuthoredBy(teacher.id))
  }

  /** `avgScore`: the mean score of the graded attempts (a missing score read as 0), or 0 when none is graded.
      The one-decimal display is not modelled. */
  function AvgScore(attempts: seq<Attempt>): real {
    var graded := GradedAttempts(attempts);
    if |graded| > 0 then TotalScore(graded) / |graded| as real else 0.0
  }

  /** A total between `lo` and `hi` times a positive count gives a mean between `lo` and `hi`. */
  lemma MeanBounds(total: real, n: real, lo: real, hi: real)
    requires n > 0.0 && lo * n <= total <= hi * n
    ensures lo <= total / n <= hi
  {
    assert total / n * n == total;
  }

  /** When every graded score is a percentage, so is the average. */
  lemma AvgScoreInRange(attempts: seq<Attempt>)
    requires forall a :: a in attempts && a.isGraded ==> 0.0 <= ScoreOrZero(a) <= 100.0
    ensures 0.0 <= AvgScore(attempts) <= 100.0
    ensures GradedAttempts(attempts) == [] ==> AvgScore(attempts) == 0.0
  {
    var graded := GradedAttempts(attempts);
    if |graded| > 0 {
      assert forall a :: a in graded ==> a in attempts && a.isGraded;
      TotalScoreBounds(graded, 0.0, 100.0);
      MeanBounds(TotalScore(graded), |graded| as real, 0.0, 100.0);
    }
  }

  /** One bar of the analytics chart: its 1-based position and the attempt's score. */
  datatype ChartBar = ChartBar(position: nat, score: Option<real>)

  function Bars(attempts: seq<Attempt>, from: nat): (r: seq<ChartBar>)
    ensures |r| == |attempts|
    ensures forall i :: 0 <= i < |r| ==> r[i] == ChartBar(from + i + 1, attempts[i].score)
  {
    if attempts == [] then [] else [ChartBar(from + 1, attempts[0].score)] + Bars(attempts[1..], from + 1)
  }

  /** `chartData`: the last ten graded attempts, numbered from 1. */
  function ChartData(attempts: seq<Attempt>): seq<ChartBar> {
    Bars(LastN(GradedAttempts(attempts), 10), 0)
  }

  /** The chart holds at most ten bars, the newest graded attempts in order. */
  lemma ChartDataSpec(attempts: seq<Attempt>)
    ensures var g, r := GradedAttempts(attempts), ChartData(attempts);
      |r| == (if |g| < 10 then |g| else 10) &&
      forall i :: 0 <= i < |r| ==> r[i].position == i + 1 && r[i].score == g[|g| - |r| + i].score
  {
    LastNAt(GradedAttempts(attempts), 10);
  }

  // ---------------------------------------------------------------------------
  // Grading

  /** The attempt as `submitGrade` rewrites it. */
  function Graded(a: Attempt, score: real): Attempt {
    a.(score := Some(score), isGraded := true)
  }

  /** `submitGrade`'s `attempts.map(...)`: grade every attempt with that id, leave the rest as they are. */
  function GradeAttempt(attempts: seq<Attempt>, attemptId: string, score: real): seq<Attempt> {
    if attempts == [] then []
    else [if attempts[0].id == attemptId then Graded(attempts[0], score) else attempts[0]]
         + GradeAttempt(attempts[1..], attemptId, score)
  }

  /** Grading keeps the list's length and order, sets score and flag on the matching attempts only, and
      leaves every other field and every other attempt unchanged. */
  lemma {:induction false} GradeAttemptSpec(attempts: seq<Attempt>, attemptId: string, score: real)
    ensures var r := GradeAttempt(attempts, attemptId, score);
      |r| == |attempts| &&
      forall i :: 0 <= i < |r| ==>
        (attempts[i].id == attemptId ==>
           r[i].score == Some(score) && r[i].isGraded && r[i] == attempts[i].(score := r[i].score, isGraded := true)) &&
        (attempts[i].id != attemptId ==> r[i] == attempts[i])
  {
    if attempts != [] {
      GradeAttemptSpec(attempts[1..], attemptId, score);
    }
  }

  /** The last grade wins; in particular grading twice with the same score changes nothing more. */
  lemma {:induction false} GradeAttemptLastWins(attempts: seq<Attempt>, attemptId: string, first: real, second: real)
    ensures GradeAttempt(GradeAttempt(attempts, attemptId, first), attemptId, second) == GradeAttempt(attempts, attemptId, second)
    ensures GradeAttempt(GradeAttempt(attempts, attemptId, second), attemptId, second) == GradeAttempt(attempts, attemptId, second)
  {
    if attempts != [] {
      GradeAttemptLastWins(attempts[1..], attemptId, first, second);
      assert GradeAttempt(attempts, attemptId, first)[1..] == GradeAttempt(attempts[1..], attemptId, first);
      assert GradeAttempt(attempts, attemptId, second)[1..] == GradeAttempt(attempts[1..], attemptId, second);
    }
  }

  function IdIsNot(attemptId: string): Attempt -> bool {
    (a: Attempt) => a.id != attemptId
  }

  /** Grading removes exactly the attempts with that id from the queue and keeps the rest of it in order. */
  lemma {:induction false} GradingLeavesQueue(attempts: seq<Attempt>, attemptId: string, score: real)
    ensures PendingAttempts(GradeAttempt(attempts, attemptId, score)) == Filter(PendingAttempts(attempts), IdIsNot(attemptId))
  {
    if attempts != [] {
      var a, rest := attempts[0], attempts[1..];
      GradingLeavesQueue(rest, attemptId, score);
      var r := GradeAttempt(attempts, attemptId, score);
      var head := if a.id == attemptId then Graded(a, score) else a;
      assert r == [head] + GradeAttempt(rest, attemptId, score);
      var keep := if IsPending(a) then [a] else [];
      assert PendingAttempts(attempts) == keep + PendingAttempts(rest);
      FilterAppend(keep, PendingAttempts(rest), IdIsNot(attemptId));
      if IsPending(a) && a.id != attemptId {
        assert [a][1..] == [];
        assert Filter(keep, IdIsNot(attemptId)) == [a];
        assert PendingAttempts(r) == [a] + PendingAttempts(GradeAttempt(rest, attemptId, score));
      } else if IsPending(a) {
        assert [a][1..] == [];
        assert Filter(keep, IdIsNot(attemptId)) == [];
        assert PendingAttempts(r) == PendingAttempts(GradeAttempt(rest, attemptId, score));
      } else {
        assert PendingAttempts(r) == PendingAttempts(GradeAttempt(rest, attemptId, score));
      }
    }
  }

  // ---------------------------------------------------------------------------
  // Authoring

  /** The new-content form (`newContent`); the form makes title and description required. */
  datatype ContentDraft = ContentDraft(
    title: string,
    description: string,
    kind: ContentType,
    minLevel: int,
    isActive: bool,
    body: Option<string>)

  const EMPTY_CONTENT_DRAFT: ContentDraft := ContentDraft("", "", Text, 1, true, None)

  /** The content `handleCreateContent` appends: the form's fields, this author, `maxLevel` 10 and 15 minutes. */
  function NewContent(draft: ContentDraft, id: string, authorId: string): Content {
    Content(id, draft.title, draft.description, draft.kind, draft.minLevel, 10, 15, authorId, draft.isActive,
            draft.body, None, None)
  }

  /** The question `handleAddQuestion` appends: an empty multiple-choice question with four blank options. */
  function NewMcqQuestion(id: string): Question {
    Question(id, "", MCQ, Some(["", "", "", ""]), Some(0))
  }

  /** What the question editors keep true of every draft question: four options and a key among them. */
  predicate DraftQuestionOk(q: Question) {
    q.options.Some? && |q.options.value| == 4 && q.correctOption.Some? && 0 <= q.correctOption.value < 4
  }

  /** Draft questions are well formed, whatever type the editor has switched them to. */
  lemma DraftQuestionsWellFormed(q: Question)
    requires DraftQuestionOk(q)
    ensures WellFormedQuestion(q)
  {
  }

  /** The title of a new exam: the word for "exam" and the content's title (`undefined` when not found). */
  function ExamTitle(contents: seq<Content>, contentId: string): string {
    "آزمون " + match Find(contents, (c: Content) => c.id == contentId)
               case Some(c) => c.title
               case None => "undefined"
  }

  function ContentIdIsNot(id: string): Content -> bool {
    (c: Content) => c.id != id
  }

  /** The delete button removes exactly the items with that id and keeps the others in order. */
  lemma DeleteContentSpec(contents: seq<Content>, id: string, more: seq<Content>)
    ensures forall c :: c in Filter(contents, ContentIdIsNot(id)) <==> c in contents && c.id != id
    ensures Filter(contents + more, ContentIdIsNot(id)) == Filter(contents, ContentIdIsNot(id)) + Filter(more, ContentIdIsNot(id))
  {
    FilterAppend(contents, more, ContentIdIsNot(id));
  }

  /** The panel's lists (replaced through its `onUpdate...` callbacks) and its form state. */
  class TeacherPanel {
    const user: User
    var attempts: seq<Attempt>
    var contents: seq<Content>
    var exams: seq<Exam>
    var showAddContent: bool
    var contentDraft: ContentDraft
    var examTarget: Option<string>
    var draftQuestions: seq<Question>
    var draftTimeLimit: int
    var draftActive: bool

    ghost predicate Valid()
      reads this
    {
      forall i :: 0 <= i < |draftQuestions| ==> DraftQuestionOk(draftQuestions[i])
    }

    constructor (user: User, attempts: seq<Attempt>, contents: seq<Content>, exams: seq<Exam>)
      ensures Valid()
      ensures this.user == user && this.attempts == attempts && this.contents == contents && this.exams == exams
      ensures !showAddContent && contentDraft == EMPTY_CONTENT_DRAFT && examTarget == None
      ensures draftQuestions == [] && draftTimeLimit == 15 && draftActive
    {
      this.user := user;
      this.attempts := attempts;
      this.contents := contents;
      this.exams := exams;
      showAddContent := false;
      contentDraft := EMPTY_CONTENT_DRAFT;
      examTarget := None;
      draftQuestions := [];
      draftTimeLimit := 15;
      draftActive := true;
    }

    /** `submitGrade`. */
    method SubmitGrade(attemptId: string, score: real)
      modifies this`attempts
      ensures attempts == GradeAttempt(old(attempts), attemptId, score)
    {
      attempts := GradeAttempt(attempts, attemptId, score);
    }

    /** The new-content form: open it, and its fields' `onChange` handlers. */
    method OpenContentForm()
      modifies this`showAddContent
      ensures showAddContent
    {
      showAddContent := true;
    }

    /** The content form's cancel button. */
    method CancelContentForm()
      modifies this`showAddContent
      ensures !showAddContent
    {
      showAddContent := false;
    }

    method EditContentDraft(draft: ContentDraft)
      modifies this`contentDraft
      ensures contentDraft == draft
    {
      contentDraft := draft;
    }

    /** `handleCreateContent`: append the drafted item by this teacher, then close and reset the form. */
    method HandleCreateContent(newId: string)
      requires contentDraft.title != "" && contentDraft.description != ""
      modifies this`contents, this`showAddContent, this`contentDraft
      ensures contents == old(contents) + [NewContent(old(contentDraft), newId, user.id)]
      ensures contents[|contents| - 1].authorId == user.id && contents[|contents| - 1].maxLevel == 10
      ensures !showAddContent && contentDraft == EMPTY_CONTENT_DRAFT
    {
      var content := NewContent(contentDraft, newId, user.id);
      contents := contents + [content];
      showAddContent := false;
      contentDraft := EMPTY_CONTENT_DRAFT;
    }

    /** The delete button of one of the teacher's items. */
    method DeleteContent(id: string)
      modifies this`contents
      ensures contents == Filter(old(contents), ContentIdIsNot(id))
      ensures forall c :: c in contents <==> c in old(contents) && c.id != id
    {
      contents := Filter(contents, ContentIdIsNot(id));
    }

    /** "Define exam" on an item opens the exam form for it; the drafted questions are kept. */
    method OpenExamForm(contentId: string)
      modifies this`examTarget
      ensures examTarget == Some(contentId)
    {
      examTarget := Some(contentId);
    }

    method CancelExamForm()
      modifies this`examTarget
      ensures examTarget == None
    {
      examTarget := None;
    }

    /** `handleAddQuestion`. */
    method HandleAddQuestion(newId: string)
      requires Valid()
      modifies this`draftQuestions
      ensures Valid()
      ensures draftQuestions == old(draftQuestions) + [NewMcqQuestion(newId)]
    {
      draftQuestions := draftQuestions + [NewMcqQuestion(newId)];
    }

    /** The type selector of draft question `idx`; options and key stay as they were. */
    method SetQuestionType(idx: nat, kind: QuestionType)
      requires Valid() && idx < |draftQuestions|
      modifies this`draftQuestions
      ensures Valid()
      ensures draftQuestions == old(draftQuestions)[idx := old(draftQuestions)[idx].(kind := kind)]
    {
      draftQuestions := draftQuestions[idx := draftQuestions[idx].(kind := kind)];
    }

    /** The text box of draft question `idx`. */
    method SetQuestionText(idx: nat, text: string)
      requires Valid() && idx < |draftQuestions|
      modifies this`draftQuestions
      ensures Valid()
      ensures draftQuestions == old(draftQuestions)[idx := old(draftQuestions)[idx].(text := text)]
    {
      draftQuestions := draftQuestions[idx := draftQuestions[idx].(text := text)];
    }

    /** The radio button of option `o` of a multiple-choice draft question. */
    method SetCorrectOption(idx: nat, o: nat)
      requires Valid() && idx < |draftQuestions| && draftQuestions[idx].kind == MCQ
      requires o < |draftQuestions[idx].options.value|
      modifies this`draftQuestions
      ensures Valid()
      ensures draftQuestions == old(draftQuestions)[idx := old(draftQuestions)[idx].(correctOption := Some(o))]
    {
      draftQuestions := draftQuestions[idx := draftQuestions[idx].(correctOption := Some(o))];
    }

    /** The text box of option `o` of a multiple-choice draft question. */
    method SetOptionText(idx: nat, o: nat, text: string)
      requires Valid() && idx < |draftQuestions| && draftQuestions[idx].kind == MCQ
      requires o < |draftQuestions[idx].options.value|
      modifies this`draftQuestions
      ensures Valid()
      ensures draftQuestions == old(draftQuestions)[idx :=
        old(draftQuestions)[idx].(options := Some(old(draftQuestions)[idx].options.value[o := text]))]
    {
      var q := draftQuestions[idx];
      draftQuestions := draftQuestions[idx := q.(options := Some(q.options.value[o := text]))];
    }

    /** `handleCreateExam`, reachable only with at least one question (the submit button is disabled
        otherwise): refused without a target item; else appends the exam for that item and resets the form. */
    method HandleCreateExam(newId: string) returns (created: bool)
      requires Valid() && |draftQuestions| > 0
      modifies this`exams, this`examTarget, this`draftQuestions, this`draftTimeLimit, this`draftActive
      ensures Valid()
      ensures created <==> old(examTarget).Some? && old(examTarget).value != ""
      ensures !created ==>
        exams == old(exams) && examTarget == old(examTarget) &&
        draftQuestions == old(draftQuestions) && draftTimeLimit == old(draftTimeLimit) && draftActive == old(draftActive)
      ensures created ==>
        exams == old(exams) + [Exam(newId, old(examTarget).value, ExamTitle(contents, old(examTarget).value),
                                    old(draftQuestions), old(draftActive), old(draftTimeLimit))] &&
        examTarget == None && draftQuestions == [] && draftTimeLimit == 15 && draftActive
      ensures created ==> forall q :: q in old(draftQuestions) ==> WellFormedQuestion(q)
    {
      if examTarget.None? || examTarget.value == "" {
        return false;
      }
      forall q | q in draftQuestions
        ensures WellFormedQuestion(q)
      {
        var i :| 0 <= i < |draftQuestions| && draftQuestions[i] == q;
        DraftQuestionsWellFormed(draftQuestions[i]);
      }
      var exam := Exam(newId, examTarget.value, ExamTitle(contents, examTarget.value), draftQuestions, draftActive,
                       draftTimeLimit);
      exams := exams + [exam];
      examTarget := None;
      draftQuestions := [];
      draftTimeLimit := 15;
      draftActive := true;
      created := true;
    }
  }
}
