/** The application shell: recording finished attempts, placement and level-up, role switching and the
    placement gate in front of every tab. */
module App {
  import opened Wrappers
  import opened Types
  import opened Seqs
  import opened Constants

  // ---------------------------------------------------------------------------
  // Level-up rule (`calculateNewLevel`)

  /** The first filter: the user's own graded attempts, placement excluded. */
  function GradedRegularOf(userId: string): Attempt -> bool {
    (a: Attempt) => a.userId == userId && a.isGraded && a.examId != PLACEMENT_ID
  }

  function ExamWithId(id: string): Exam -> bool {
    (e: Exam) => e.id == id
  }

  function ContentWithId(id: string): Content -> bool {
    (c: Content) => c.id == id
  }

  /** `minLevel` of the content behind an exam, via `exams.find` and then `contents.find`; `None` when either
      lookup finds nothing. */
  function ContentLevelOf(examId: string, exams: seq<Exam>, contents: seq<Content>): Option<int> {
    match Find(exams, ExamWithId(examId))
    case None => None
    case Some(e) =>
      match Find(contents, ContentWithId(e.contentId))
      case None => None
      case Some(c) => Some(c.minLevel)
  }

  /** The second filter: attempts on content whose `minLevel` is the given level. */
  function OnContentLevel(level: int, exams: seq<Exam>, contents: seq<Content>): Attempt -> bool {
    (a: Attempt) => ContentLevelOf(a.examId, exams, contents) == Some(level)
  }

  /** The attempts that count toward leaving `level`. */
  function CurrentLevelAttempts(userId: string, level: int, attempts: seq<Attempt>, exams: seq<Exam>,
                                contents: seq<Content>): seq<Attempt> {
    Filter(Filter(attempts, GradedRegularOf(userId)), OnContentLevel(level, exams, contents))
  }

  /** `calculateNewLevel`: one level up after at least two counting attempts averaging above 80. */
  function CalculateNewLevel(userId: string, currentLevel: int, attempts: seq<Attempt>, exams: seq<Exam>,
                             contents: seq<Content>): int {
    if LevelRuleMet(CurrentLevelAttempts(userId, currentLevel, attempts, exams, contents))
    then currentLevel + 1 else currentLevel
  }

  /** The threshold of `calculateNewLevel` on the counting attempts: at least two, averaging above 80. */
  predicate LevelRuleMet(q: seq<Attempt>) {
    |q| >= 2 && TotalScore(q) / |q| as real > 80.0
  }

  /** The average threshold without the division: the total exceeds 80 per attempt. */
  lemma LevelRuleTotal(q: seq<Attempt>)
    ensures LevelRuleMet(q) <==> |q| >= 2 && TotalScore(q) > 80.0 * |q| as real
  {
    if |q| >= 2 {
      AverageAbove(TotalScore(q), |q| as real, 80.0);
    }
  }

  /** An attempt counts exactly when it is the user's, graded, not the placement exam, and its exam and that
      exam's content both exist with the content's `minLevel` equal to the level. */
  lemma CountingAttempts(userId: string, level: int, attempts: seq<Attempt>, exams: seq<Exam>,
                         contents: seq<Content>, a: Attempt)
    ensures a in CurrentLevelAttempts(userId, level, attempts, exams, contents) <==>
      a in attempts && a.userId == userId && a.isGraded && a.examId != PLACEMENT_ID &&
      (exists e, c :: e in exams && e.id == a.examId && c in contents && c.id == e.contentId &&
                      c.minLevel == level &&
                      Find(exams, ExamWithId(a.examId)) == Some(e) &&
                      Find(contents, ContentWithId(e.contentId)) == Some(c))
  {
  }

  /** The rule only ever moves one level up. */
  lemma NewLevelIsSameOrNext(userId: string, level: int, attempts: seq<Attempt>, exams: seq<Exam>,
                             contents: seq<Content>)
    ensures var r := CalculateNewLevel(userId, level, attempts, exams, contents);
      r == level || r == level + 1
  {
  }

  /** The level goes up exactly when at least two attempts count and their scores total more than 80 each. */
  lemma LevelUpIff(userId: string, level: int, attempts: seq<Attempt>, exams: seq<Exam>, contents: seq<Content>)
    ensures var q := CurrentLevelAttempts(userId, level, attempts, exams, contents);
      CalculateNewLevel(userId, level, attempts, exams, contents) == level + 1 <==>
      |q| >= 2 && TotalScore(q) > 80.0 * |q| as real
  {
    LevelRuleTotal(CurrentLevelAttempts(userId, level, attempts, exams, contents));
  }

  /** Dividing by a positive count: the average exceeds a bound exactly when the total exceeds count times it. */
  lemma AverageAbove(total: real, n: real, bound: real)
    requires n > 0.0
    ensures total / n > bound <==> total > bound * n
  {
    assert total / n * n == total;
  }

  /** Nobody levels up without at least one counting attempt scored above 80. */
  lemma LevelUpNeedsAHighScore(userId: string, level: int, attempts: seq<Attempt>, exams: seq<Exam>,
                               contents: seq<Content>)
    requires CalculateNewLevel(userId, level, attempts, exams, contents) == level + 1
    ensures exists a :: a in CurrentLevelAttempts(userId, level, attempts, exams, contents) &&
                        a.userId == userId && ScoreOrZero(a) > 80.0
  {
    var q := CurrentLevelAttempts(userId, level, attempts, exams, contents);
    LevelRuleTotal(q);
    var a := SomeScoreAbove(q);
    assert a in Filter(attempts, GradedRegularOf(userId));
  }

  /** A total above 80 per attempt needs some attempt scored above 80. */
  lemma SomeScoreAbove(q: seq<Attempt>) returns (a: Attempt)
    requires TotalScore(q) > 80.0 * |q| as real
    ensures a in q && ScoreOrZero(a) > 80.0
  {
    if forall x :: x in q ==> ScoreOrZero(x) <= 80.0 {
      TotalScoreAtMost(q, 80.0);
      assert false;
    }
    a :| a in q && ScoreOrZero(a) > 80.0;
  }

  /** Attempts of other users never change a user's level. */
  lemma OnlyOwnAttemptsCount(userId: string, level: int, attempts: seq<Attempt>, exams: seq<Exam>,
                             contents: seq<Content>)
    requires forall a :: a in attempts ==> a.userId != userId
    ensures CalculateNewLevel(userId, level, attempts, exams, contents) == level
  {
    FilterKeepsNone(attempts, GradedRegularOf(userId));
  }

  // ---------------------------------------------------------------------------
  // Placement and the level after a finished exam

  /** The placement staircase: above 85 gives level 3, above 50 level 2, anything else level 1. */
  function PlacementLevel(score: real): int {
    if score > 85.0 then 3 else if score > 50.0 then 2 else 1
  }

  /** Placement always lands on level 1, 2 or 3, never lower for a higher score. */
  lemma PlacementLevelRange(score: real, other: real)
    ensures 1 <= PlacementLevel(score) <= 3
    ensures score <= other ==> PlacementLevel(score) <= PlacementLevel(other)
  {
  }

  /** The thresholds are strict: 85 still gives 2 and 50 still gives 1; the placement page's fixed 75 gives 2. */
  lemma PlacementThresholds()
    ensures PlacementLevel(85.0) == 2 && PlacementLevel(50.0) == 1 && PlacementLevel(PLACEMENT_SCORE) == 2
  {
  }

  /** The score the placement page reports whatever the answers. */
  const PLACEMENT_SCORE: real := 75.0

  /** `nextLevel > currentUser.level ? nextLevel : currentUser.level`: a recomputed level only ever raises. */
  function RaisedLevel(current: int, next: int): int {
    if next > current then next else current
  }

  /** The attempt `handleCompleteExam` records: graded exactly when a score exists. */
  function NewAttempt(id: string, userId: string, examId: string, answers: Answers, finalScore: Option<real>,
                      date: string): Attempt {
    Attempt(id, userId, examId, answers, finalScore, finalScore.Some?, date)
  }

  /** The user's level once `handleCompleteExam` has recorded an attempt and `attempts` is the updated list. */
  function LevelAfterExam(user: User, examId: string, finalScore: Option<real>, attempts: seq<Attempt>,
                          exams: seq<Exam>, contents: seq<Content>): int {
    if examId == PLACEMENT_ID && finalScore.Some? then PlacementLevel(finalScore.value)
    else if finalScore.Some? then RaisedLevel(user.level, CalculateNewLevel(user.id, user.level, attempts, exams, contents))
    else user.level
  }

  /** After a regular exam the level stays or rises by one; an undefined score changes nothing. */
  lemma RegularExamNeverLowersLevel(user: User, examId: string, finalScore: Option<real>, attempts: seq<Attempt>,
                                    exams: seq<Exam>, contents: seq<Content>)
    requires examId != PLACEMENT_ID || finalScore.None?
    ensures var l := LevelAfterExam(user, examId, finalScore, attempts, exams, contents);
      user.level <= l <= user.level + 1 && (finalScore.None? ==> l == user.level)
  {
    NewLevelIsSameOrNext(user.id, user.level, attempts, exams, contents);
  }

  /** A scored placement sets the level to 1, 2 or 3, whatever it was before (a retake can lower it). */
  lemma PlacementResetsLevel(user: User, finalScore: real, attempts: seq<Attempt>, exams: seq<Exam>,
                             contents: seq<Content>)
    ensures var l := LevelAfterExam(user, PLACEMENT_ID, Some(finalScore), attempts, exams, contents);
      1 <= l <= 3 && l == PlacementLevel(finalScore)
  {
  }

  // ---------------------------------------------------------------------------
  // The placement gate and what the main area shows

  /** A citizen at level 0 has not been placed yet. */
  predicate Blocked(user: User) {
    user.role == Citizen && user.level == 0
  }

  datatype View =
    | ExamView(exam: Option<Exam>)
    | PlacementRequired
    | DashboardView
    | PlacementView
    | LibraryView
    | TeacherView
    | AdminView
    | ProfileView
    | UnderConstruction

  /** `renderContent` as written: an open exam first, then the placement gate, then the tab. An empty exam id
      is falsy. Its switch has no case for the profile tab. */
  function RenderViewAsWritten(user: User, activeTab: string, selectedExamId: Option<string>, exams: seq<Exam>): View {
    if selectedExamId.Some? && selectedExamId.value != "" then ExamView(Find(exams, ExamWithId(selectedExamId.value)))
    else if Blocked(user) && activeTab != "placement" then PlacementRequired
    else if activeTab == "dashboard" then DashboardView
    else if activeTab == "placement" then PlacementView
    else if activeTab == "library" then LibraryView
    else if activeTab == "teacher" then TeacherView
    else if activeTab == "admin" then AdminView
    else UnderConstruction
  }

  /** The profile tab that the sidebar offers every role falls through to the placeholder. */
  lemma ProfileTabFallsThrough(user: User, exams: seq<Exam>)
    requires !Blocked(user)
    ensures RenderViewAsWritten(user, "profile", None, exams) == UnderConstruction
  {
  }

  /** `renderContent` with the profile page routed: the same as written on every other tab. */
  function RenderView(user: User, activeTab: string, selectedExamId: Option<string>, exams: seq<Exam>): (v: View)
    ensures activeTab != "profile" ==> v == RenderViewAsWritten(user, activeTab, selectedExamId, exams)
    ensures v == ProfileView <==>
      activeTab == "profile" && RenderViewAsWritten(user, activeTab, selectedExamId, exams) == UnderConstruction
  {
    var written := RenderViewAsWritten(user, activeTab, selectedExamId, exams);
    if activeTab == "profile" && written == UnderConstruction then ProfileView else written
  }

  /** Outside an open exam, a blocked user sees the placement test or the "placement required" notice, nothing
      else; an unblocked user never sees that notice. */
  lemma PlacementGate(user: User, activeTab: string, selectedExamId: Option<string>, exams: seq<Exam>)
    requires selectedExamId.None?
    ensures var v := RenderView(user, activeTab, selectedExamId, exams);
      (Blocked(user) ==> v == PlacementView || v == PlacementRequired) &&
      (Blocked(user) ==> (v == PlacementView <==> activeTab == "placement")) &&
      (!Blocked(user) ==> v != PlacementRequired)
  {
  }

  // ---------------------------------------------------------------------------
  // The application state

  class AppState {
    var currentUser: User
    var activeTab: string
    var contents: seq<Content>
    var exams: seq<Exam>
    var attempts: seq<Attempt>
    var selectedExamId: Option<string>

    /** The state before anything is loaded: the demo citizen on the dashboard, the mock content and exams. */
    constructor ()
      ensures currentUser == INITIAL_USER && activeTab == "dashboard"
      ensures contents == MOCK_CONTENTS && exams == INITIAL_EXAMS
      ensures attempts == [] && selectedExamId == None
    {
      currentUser := INITIAL_USER;
      activeTab := "dashboard";
      contents := MOCK_CONTENTS;
      exams := INITIAL_EXAMS;
      attempts := [];
      selectedExamId := None;
    }

    predicate IsBlocked()
      reads this
    {
      Blocked(currentUser)
    }

    /** The main area, rendered through the corrected `RenderView` (profile tab routed to the profile page);
        the switch as written is `RenderViewAsWritten`. */
    function CurrentView(): View
      reads this
    {
      RenderView(currentUser, activeTab, selectedExamId, exams)
    }

    /** `handleCompleteExam`: append one attempt, then set the placement level or apply the level-up rule to
        the updated list, and close the exam. */
    method HandleCompleteExam(examId: string, answers: Answers, finalScore: Option<real>, attemptId: string,
                              date: string)
      modifies this
      ensures attempts == old(attempts) + [NewAttempt(attemptId, old(currentUser).id, examId, answers, finalScore, date)]
      ensures attempts[|attempts| - 1].isGraded <==> finalScore.Some?
      ensures currentUser == old(currentUser).(level :=
        LevelAfterExam(old(currentUser), examId, finalScore, attempts, exams, contents))
      ensures activeTab == (if examId == PLACEMENT_ID && finalScore.Some? then "dashboard" else old(activeTab))
      ensures contents == old(contents) && exams == old(exams) && selectedExamId == None
    {
      var newAttempt := NewAttempt(attemptId, currentUser.id, examId, answers, finalScore, date);
      var updatedAttempts := attempts + [newAttempt];
      attempts := updatedAttempts;
      if examId == PLACEMENT_ID && finalScore.Some? {
        var initialLevel := 1;
        if finalScore.value > 85.0 {
          initialLevel := 3;
        } else if finalScore.value > 50.0 {
          initialLevel := 2;
        }
        currentUser := currentUser.(level := initialLevel);
        activeTab := "dashboard";
      } else if finalScore.Some? {
        var nextLevel := CalculateNewLevel(currentUser.id, currentUser.level, updatedAttempts, exams, contents);
        if nextLevel > currentUser.level {
          currentUser := currentUser.(level := nextLevel);
        }
      }
      selectedExamId := None;
    }

    /** The placement page's completion: recorded with the fixed score 75, which places the user at level 2. */
    method CompletePlacement(answers: Answers, attemptId: string, date: string)
      modifies this
      ensures attempts == old(attempts) + [NewAttempt(attemptId, old(currentUser).id, PLACEMENT_ID, answers,
                                                      Some(PLACEMENT_SCORE), date)]
      ensures currentUser == old(currentUser).(level := 2)
      ensures activeTab == "dashboard" && !IsBlocked()
      ensures contents == old(contents) && exams == old(exams) && selectedExamId == None
    {
      HandleCompleteExam(PLACEMENT_ID, answers, Some(PLACEMENT_SCORE), attemptId, date);
    }

    /** The teacher panel's `onUpdateAttempts`: take the new list, then raise the current user's level if the
        rule now allows it. */
    method OnTeacherUpdateAttempts(newAttempts: seq<Attempt>)
      modifies this
      ensures attempts == newAttempts
      ensures currentUser == old(currentUser).(level :=
        RaisedLevel(old(currentUser).level, CalculateNewLevel(old(currentUser).id, old(currentUser).level,
                                                              newAttempts, exams, contents)))
      ensures old(currentUser).level <= currentUser.level <= old(currentUser).level + 1
      ensures contents == old(contents) && exams == old(exams)
      ensures activeTab == old(activeTab) && selectedExamId == old(selectedExamId)
    {
      attempts := newAttempts;
      var nextLevel := CalculateNewLevel(currentUser.id, currentUser.level, newAttempts, exams, contents);
      NewLevelIsSameOrNext(currentUser.id, currentUser.level, newAttempts, exams, contents);
      if nextLevel > currentUser.level {
        currentUser := currentUser.(level := nextLevel);
      }
    }

    /** `handleRoleSwitch`: swap in the demo user of that role and go to the dashboard. */
    method HandleRoleSwitch(role: UserRole)
      modifies this
      ensures currentUser == (match role case Teacher => MOCK_TEACHER case Admin => MOCK_ADMIN
                                         case Citizen => INITIAL_USER)
      ensures currentUser.role == role
      ensures activeTab == "dashboard"
      ensures attempts == old(attempts) && contents == old(contents) && exams == old(exams)
      ensures selectedExamId == old(selectedExamId)
    {
      if role == Teacher {
        currentUser := MOCK_TEACHER;
      } else if role == Admin {
        currentUser := MOCK_ADMIN;
      } else {
        currentUser := INITIAL_USER;
      }
      activeTab := "dashboard";
    }

    /** A sidebar click, or the "start placement" button of the notice. */
    method SetActiveTab(tab: string)
      modifies this`activeTab
      ensures activeTab == tab
    {
      activeTab := tab;
    }

    /** The library's `onStartExam`. */
    method StartExam(examId: string)
      modifies this`selectedExamId
      ensures selectedExamId == Some(examId)
    {
      selectedExamId := Some(examId);
    }

    /** The exam page's `onCancel`: leave without recording an attempt. */
    method CancelExam()
      modifies this`selectedExamId
      ensures selectedExamId == None
    {
      selectedExamId := None;
    }
  }
}
