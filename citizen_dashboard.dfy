/** The citizen's dashboard: own graded attempts, progress toward the next level, chart and recent list. */
module CitizenDashboard {
  import opened Wrappers
  import opened Types
  import opened Seqs
  import App

  function OwnGraded(userId: string): Attempt -> bool {
    (a: Attempt) => a.userId == userId && a.isGraded
  }

  function NotPlacement(a: Attempt): bool {
    a.examId != PLACEMENT_ID
  }

  /** `userAttempts`: this user's graded attempts, in order. */
  function UserAttempts(user: User, attempts: seq<Attempt>): (r: seq<Attempt>)
    ensures forall a :: a in r <==> a in attempts && a.userId == user.id && a.isGraded
  {
    Filter(attempts, OwnGraded(user.id))
  }

  /** `currentLevelAttempts`: how many of them are not the placement test. */
  function RegularCount(user: User, attempts: seq<Attempt>): nat {
    |Filter(UserAttempts(user, attempts), NotPlacement)|
  }

  /** `progressPercent`: three counted exams fill the bar. */
  function ProgressPercent(count: nat): real {
    var p := count as real / 3.0 * 100.0;
    if p < 100.0 then p else 100.0
  }

  /** The "exams still to go" figure. */
  function RemainingExams(count: nat): int {
    if 3 - count > 0 then 3 - count else 0
  }

  /** The bar is a percentage, a third per counted exam, full exactly from the third exam on. */
  lemma ProgressSpec(count: nat)
    ensures 0.0 <= ProgressPercent(count) <= 100.0
    ensures ProgressPercent(count) == 100.0 <==> count >= 3
    ensures count <= 3 ==> ProgressPercent(count) * 3.0 == count as real * 100.0
  {
  }

  /** The figure beside the bar is never negative, and it reaches 0 exactly when the bar is full. */
  lemma RemainingExamsSpec(count: nat)
    ensures 0 <= RemainingExams(count) <= 3
    ensures RemainingExams(count) == 0 <==> ProgressPercent(count) >= 100.0
    ensures count <= 3 ==> RemainingExams(count) == 3 - count
  {
  }

  /** The bar counts every regular graded exam of the user at any level, whereas the level-up rule in
      `App.CalculateNewLevel` counts only those on the current level: the bar never counts fewer. */
  lemma ProgressCountsAtLeastLevelRule(user: User, attempts: seq<Attempt>, exams: seq<Exam>, contents: seq<Content>)
    ensures |App.CurrentLevelAttempts(user.id, user.level, attempts, exams, contents)| <= RegularCount(user, attempts)
  {
    FilterFilter(attempts, OwnGraded(user.id), NotPlacement, App.GradedRegularOf(user.id));
  }

  /** One point of the score chart; the date is shown as the stored string (locale formatting is left out). */
  datatype ChartPoint = ChartPoint(date: string, score: Option<real>)

  function Points(attempts: seq<Attempt>): (r: seq<ChartPoint>)
    ensures |r| == |attempts|
    ensures forall i :: 0 <= i < |r| ==> r[i] == ChartPoint(attempts[i].date, attempts[i].score)
  {
    if attempts == [] then [] else [ChartPoint(attempts[0].date, attempts[0].score)] + Points(attempts[1..])
  }

  /** `chartData`: the last seven of `userAttempts`. */
  function Chart(user: User, attempts: seq<Attempt>): seq<ChartPoint> {
    Points(LastN(UserAttempts(user, attempts), 7))
  }

  /** The chart shows at most seven points: the user's newest graded attempts, oldest first. */
  lemma ChartSpec(user: User, attempts: seq<Attempt>)
    ensures var ua, r := UserAttempts(user, attempts), Chart(user, attempts);
      |r| == (if |ua| < 7 then |ua| else 7) &&
      forall i :: 0 <= i < |r| ==> r[i].score == ua[|ua| - |r| + i].score
  {
    LastNAt(UserAttempts(user, attempts), 7);
  }

  /** The recent-activity list: the last three of `userAttempts`, newest first. */
  function Recent(user: User, attempts: seq<Attempt>): seq<Attempt> {
    Reverse(LastN(UserAttempts(user, attempts), 3))
  }

  /** The recent list holds at most three attempts, the newest graded one on top. */
  lemma RecentSpec(user: User, attempts: seq<Attempt>)
    ensures var ua, r := UserAttempts(user, attempts), Recent(user, attempts);
      |r| == (if |ua| < 3 then |ua| else 3) &&
      forall k :: 0 <= k < |r| ==> r[k] == ua[|ua| - 1 - k]
  {
    var ua := UserAttempts(user, attempts);
    LastNAt(ua, 3);
    ReverseAt(LastN(ua, 3));
  }
}
