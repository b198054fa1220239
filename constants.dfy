/** The seed data: the three demo users, the placement exam and the mock content and exams. */
module Constants {
  import opened Wrappers
  import opened Types

  // The source builds these users without `xp`; the model gives them 0.
  const INITIAL_USER: User := User("u1", "علی محمدی", "ali@example.com", Citizen, 0, [], 0)
  const MOCK_TEACHER: User := User("t1", "دکتر علوی", "alavi@edu.ir", Teacher, 5, [], 0)
  const MOCK_ADMIN: User := User("a1", "مدیر سامانه", "admin@cogni.ir", Admin, 10, [], 0)

  const PLACEMENT_EXAM: Exam := Exam(
    PLACEMENT_ID, "none", "آزمون تعیین سطح شناختی اولیه",
    [ Question("p1", "کدام یک از مهارت‌های زیر در حل مسائل پیچیده نقش کلیدی دارد؟", MCQ,
               Some(["تفکر انتقادی", "حافظه کوتاه‌مدت", "سرعت تایپ", "قدرت بدنی"]), Some(0)),
      Question("p2", "توضیح دهید چگونه مدیریت زمان می‌تواند بر کاهش استرس شناختی موثر باشد؟", Descriptive,
               None, None) ],
    true, 20)

  const MOCK_CONTENTS: seq<Content> := [
    Content("c1", "اصول حافظه فعال", "آشنایی با مکانیزم‌های ذخیره‌سازی اطلاعات در مغز.", Text,
            1, 3, 15, "t1", true,
            Some("حافظه فعال یکی از حیاتی‌ترین بخش‌های سیستم شناختی انسان است..."), None, None),
    Content("c2", "تمرکز حواس در محیط کار", "چگونه تمرکز خود را در محیط‌های شلوغ حفظ کنیم؟", Video,
            2, 5, 10, "t1", true,
            None, Some("https://sample-videos.com/video123/mp4/720/big_buck_bunny_720p_1mb.mp4"), None)
  ]

  const MOCK_EXAMS: seq<Exam> := [
    Exam("e1", "c1", "کوییز اصول حافظه فعال",
         [ Question("q1", "ظرفیت متوسط حافظه فعال چند واحد است؟", MCQ, Some(["۳", "۷", "۱۲", "۲۰"]), Some(1)) ],
         true, 10)
  ]

  /** The exam list the application starts with: the placement exam, then the mock exams. */
  const INITIAL_EXAMS: seq<Exam> := [PLACEMENT_EXAM] + MOCK_EXAMS

  /** No two items of a content list share an id. */
  predicate DistinctContentIds(contents: seq<Content>) {
    forall i, j :: 0 <= i < j < |contents| ==> contents[i].id != contents[j].id
  }

  /** The demo users: a citizen still to be placed, a teacher at level 5 and an admin at level 10. */
  lemma DemoUsers()
    ensures INITIAL_USER.role == Citizen && INITIAL_USER.level == 0
    ensures MOCK_TEACHER.role == Teacher && MOCK_TEACHER.level == 5
    ensures MOCK_ADMIN.role == Admin && MOCK_ADMIN.level == 10
  {
  }

  /** The placement exam: not tied to content, one well-formed multiple-choice question and one open question. */
  lemma PlacementExamShape()
    ensures PLACEMENT_EXAM.id == PLACEMENT_ID && PLACEMENT_EXAM.contentId == "none"
    ensures |PLACEMENT_EXAM.questions| == 2
    ensures PLACEMENT_EXAM.questions[0].kind == MCQ && WellFormedQuestion(PLACEMENT_EXAM.questions[0])
    ensures |PLACEMENT_EXAM.questions[0].options.value| == 4
    ensures PLACEMENT_EXAM.questions[1].kind == Descriptive
  {
  }

  /** Every mock content item has a consistent level range, and the ids are distinct. */
  lemma MockContentsWellFormed()
    ensures forall c :: c in MOCK_CONTENTS ==> c.minLevel <= c.maxLevel
    ensures DistinctContentIds(MOCK_CONTENTS)
  {
  }

  /** The mock exam refers to content that exists and has a well-formed question. */
  lemma MockExamsWellFormed()
    ensures forall e :: e in MOCK_EXAMS ==> exists c :: c in MOCK_CONTENTS && c.id == e.contentId
    ensures forall e, q :: e in MOCK_EXAMS && q in e.questions ==> WellFormedQuestion(q)
  {
    assert MOCK_CONTENTS[0] in MOCK_CONTENTS;
  }
}
