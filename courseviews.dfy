/** CourseViews: what the course endpoints do beyond plain storage. Creating a
    course stamps the requester as its author; creating a lesson notifies every
    enrolled student and queues one delivery job per notification. */
module CourseViews {
  import opened Common
  import opened Accounts
  import opened Permissions
  import opened Content
  import opened Notifications

  /** The text of the notification a new lesson produces. */
  function LessonMessage(lessonTitle: string, courseTitle: string): (m: string)
    ensures |m| == 28 + |lessonTitle| + |courseTitle|
    ensures m[..11] == "New lesson " && m[11..11 + |lessonTitle|] == lessonTitle
    ensures m[11 + |lessonTitle|..] == " added to course " + courseTitle
  {
    "New lesson " + lessonTitle + " added to course " + courseTitle
  }

  /** The rows the fan-out loop appends: one unsent notification per student, in
      the order the student query returns them, with consecutive ids starting at `firstId`. */
  function FanOut(students: seq<UserId>, message: string, now: nat, firstId: nat): (r: seq<Notification>)
    ensures |r| == |students|
    ensures forall j :: 0 <= j < |r| ==> r[j] == Notification(firstId + j, students[j], message, now, false)
    decreases |students|
  {
    if students == [] then []
    else
      var k := |students| - 1;
      FanOut(students[..k], message, now, firstId) + [Notification(firstId + k, students[k], message, now, false)]
  }

  /** The ids of a sequence of rows, in order. */
  function IdsOf(rows: seq<Notification>): (r: seq<nat>)
    ensures |r| == |rows|
    ensures forall j :: 0 <= j < |rows| ==> r[j] == rows[j].id
  {
    seq(|rows|, j requires 0 <= j < |rows| => rows[j].id)
  }

  /** The recipients of a sequence of rows, in order. */
  function Recipients(rows: seq<Notification>): (r: seq<UserId>)
    ensures |r| == |rows|
    ensures forall j :: 0 <= j < |rows| ==> r[j] == rows[j].user
  {
    seq(|rows|, j requires 0 <= j < |rows| => rows[j].user)
  }

  /** The fan-out addresses exactly the enrolled students: K students give K rows,
      and a student enrolled once receives exactly one notification. */
  lemma FanOutOnePerStudent(students: seq<UserId>, message: string, now: nat, firstId: nat)
    ensures var r := FanOut(students, message, now, firstId);
      && Recipients(r) == students
      && multiset(Recipients(r)) == multiset(students)
      && forall j :: 0 <= j < |r| ==> !r[j].sent && r[j].message == message
  {
    var r := FanOut(students, message, now, firstId);
    assert Recipients(r) == students;
  }

  /** The new rows carry distinct ids, none below `firstId`, so none collides with a
      row already stored when `firstId` is the table's next id. */
  lemma FanOutIdsFresh(students: seq<UserId>, message: string, now: nat, firstId: nat)
    ensures var r := FanOut(students, message, now, firstId);
      && UniqueIds(r)
      && forall j :: 0 <= j < |r| ==> firstId <= r[j].id < firstId + |students|
  {
  }

  /** Appending the rows of a fan-out to a table whose ids are all below `firstId`
      keeps the ids unique. */
  lemma FanOutKeepsIdsUnique(rows: seq<Notification>, students: seq<UserId>, message: string, now: nat, firstId: nat)
    requires UniqueIds(rows)
    requires forall i :: 0 <= i < |rows| ==> rows[i].id < firstId
    ensures UniqueIds(rows + FanOut(students, message, now, firstId))
  {
    var all := rows + FanOut(students, message, now, firstId);
    forall i, j | 0 <= i < j < |all| ensures all[i].id != all[j].id {
      if j >= |rows| && i < |rows| {
        assert all[i].id < firstId <= all[j].id;
      }
    }
  }

  /** Running, with a successful send, the job queued for each fan-out row delivers
      every one of them: afterwards each new row is sent, and the rows stored before
      are as they were or marked sent. */
  lemma {:induction false} FanOutJobsDeliverAll(rows: seq<Notification>, users: map<UserId, User>,
                                                  students: seq<UserId>, message: string, now: nat, firstId: nat)
    requires UniqueIds(rows)
    requires forall i :: 0 <= i < |rows| ==> rows[i].id < firstId
    requires forall s :: s in students ==> s in users
    ensures var fan := FanOut(students, message, now, firstId);
      var jobs := seq(|fan|, j requires 0 <= j < |fan| => Job(fan[j].id, true));
      var after := RunJobs(rows + fan, users, jobs);
      && |after| == |rows| + |fan|
      && (forall j :: |rows| <= j < |after| ==> after[j] == (rows + fan)[j].(sent := true))
      && (forall i :: 0 <= i < |rows| ==> after[i] == rows[i])
  {
    var fan := FanOut(students, message, now, firstId);
    var jobs := seq(|fan|, j requires 0 <= j < |fan| => Job(fan[j].id, true));
    var all := rows + fan;
    FanOutKeepsIdsUnique(rows, students, message, now, firstId);
    SentAfterJobs(all, users, jobs);
    var after := RunJobs(all, users, jobs);
    forall j | |rows| <= j < |after| ensures after[j] == all[j].(sent := true) {
      var k := j - |rows|;
      assert students[k] in students;
      assert Delivers(jobs[k], all[j], users);
    }
    forall i | 0 <= i < |rows| ensures after[i] == rows[i] {
      forall k | 0 <= k < |jobs| ensures !Delivers(jobs[k], all[i], users) {
        assert all[i].id < firstId <= fan[k].id;
      }
    }
  }

  /** `max_length` of the course title column. */
  const CourseTitleMaxLength: nat := 255

  /** The course fields the serializer validates; each error is reported under the
      field's own name. */
  datatype CourseField = CourseTitle | CourseDescription | CourseCategory | CourseLevel

  /** The course fields that fail validation; every failing field is reported. The
      text fields are stripped and may hold no null character; the title must not be
      blank and must fit its column, the description may be blank; the category must
      name a stored category; the level must be one of the choices as given. */
  function CourseFieldErrors(categories: set<nat>, title: string, description: string, category: nat,
                             level: string)
    : (errors: set<CourseField>)
    ensures CourseTitle in errors <==>
      Trim(title) == [] || |Trim(title)| > CourseTitleMaxLength || '\0' in Trim(title)
    ensures CourseDescription in errors <==> '\0' in Trim(description)
    ensures CourseCategory in errors <==> category !in categories
    ensures CourseLevel in errors <==> ParseLevel(level).Err?
  {
    var t := Trim(title);
    (if t != [] && |t| <= CourseTitleMaxLength && '\0' !in t then {} else {CourseTitle})
    + (if '\0' !in Trim(description) then {} else {CourseDescription})
    + (if category in categories then {} else {CourseCategory})
    + (if ParseLevel(level).Ok? then {} else {CourseLevel})
  }

  /** Why a course-creation request was turned away. */
  datatype CreateError = Forbidden | Invalid(fields: set<CourseField>)

  /** A POST to the course endpoint: the permission check of the endpoint's policy,
      then validation of the fields, then `perform_create`, which saves the course,
      its text fields stripped, with the requester as its author. `categories` holds
      the ids of the stored categories. Nothing is stored on either rejection. */
  method CreateCourse(db: ContentDb, requester: Requester, categories: set<nat>, title: string,
                      description: string, category: nat, level: string)
    returns (r: Result<Course, CreateError>)
    requires db.Valid()
    modifies db
    ensures db.Valid()
    ensures Authorize(PolicyOf(Courses), requester, "POST", None) != Granted ==> r == Err(Forbidden)
    ensures Authorize(PolicyOf(Courses), requester, "POST", None) == Granted ==>
      (r.Ok? <==> CourseFieldErrors(categories, title, description, category, level) == {})
    ensures Authorize(PolicyOf(Courses), requester, "POST", None) == Granted && r.Err? ==>
      r == Err(Invalid(CourseFieldErrors(categories, title, description, category, level)))
    ensures r.Err? ==>
      db.courses == old(db.courses) && db.modules == old(db.modules) && db.lessons == old(db.lessons)
    ensures db.nextCourseId == old(db.nextCourseId) + (if r.Ok? then 1 else 0)
    ensures db.nextModuleId == old(db.nextModuleId) && db.nextLessonId == old(db.nextLessonId)
    ensures r.Ok? ==>
      && requester.SignedIn? && requester.role != Student
      && ParseLevel(level).Ok? && category in categories
      && r.value == Course(old(db.nextCourseId), requester.id, Trim(title), Trim(description), category,
                           ParseLevel(level).value, [])
      && 0 < |r.value.title| <= CourseTitleMaxLength
      && db.courses == old(db.courses)[r.value.id := r.value]
      && db.modules == old(db.modules) && db.lessons == old(db.lessons)
  {
    if Authorize(PolicyOf(Courses), requester, "POST", None) != Granted {
      return Err(Forbidden);
    }
    var errors := CourseFieldErrors(categories, title, description, category, level);
    if errors != {} {
      return Err(Invalid(errors));
    }
    var c := db.AddCourse(requester.id, Trim(title), Trim(description), category, ParseLevel(level).value);
    r := Ok(c);
  }

  /** A student's POST to the course endpoint is refused before any field is looked
      at; an instructor's passes the permission check. */
  lemma CreateCourseGate(s: UserId, i: UserId)
    ensures Authorize(PolicyOf(Courses), SignedIn(s, Student), "POST", None) == Denied
    ensures Authorize(PolicyOf(Courses), SignedIn(i, Instructor), "POST", None) == Granted
  {
  }

  /** An unknown category and a level outside the choices are both reported. */
  lemma UnknownCategoryAndLevelReported()
    ensures CourseFieldErrors({1}, "Python", "", 2, "expert") == {CourseCategory, CourseLevel}
  {
    assert Trim("") == [];
    assert Trim("Python") == "Python" by {
      assert LeadingSpaces("Python") == 0;
      assert TrailingSpaces("Python") == 0;
    }
    var e := CourseFieldErrors({1}, "Python", "", 2, "expert");
    assert CourseTitle !in e && CourseDescription !in e && CourseCategory in e && CourseLevel in e;
  }

  /** A title made only of whitespace is blank and reported on its own. */
  lemma BlankTitleReported()
    ensures CourseFieldErrors({1}, "  ", "", 1, "beginner") == {CourseTitle}
  {
    assert Trim("") == [] && Trim("  ") == [];
    var f := CourseFieldErrors({1}, "  ", "", 1, "beginner");
    assert CourseTitle in f && CourseDescription !in f && CourseCategory !in f && CourseLevel !in f;
  }

  /** `LessonViewSet.perform_create`: save the lesson (its position assigned by the
      order rule), find its course, then for each enrolled student create an unsent
      notification and queue a delivery job carrying its id. */
  method PerformCreateLesson(db: ContentDb, inbox: Inbox, l: Lesson, now: nat)
    returns (saved: Lesson, course: Course)
    requires db.Valid() && inbox.Valid()
    requires l.moduleId in db.ModuleIds()
    modifies db, inbox
    ensures db.Valid() && inbox.Valid()
    ensures saved.order == AssignedOrder(true, l.order, SiblingOrders(LessonSlots(old(db.lessons)), l.moduleId))
    ensures saved == l.(id := old(db.nextLessonId), order := saved.order)
    ensures db.lessons == old(db.lessons) + [saved]
    ensures db.courses == old(db.courses) && db.modules == old(db.modules)
    ensures db.nextLessonId == old(db.nextLessonId) + 1
    ensures db.nextCourseId == old(db.nextCourseId) && db.nextModuleId == old(db.nextModuleId)
    ensures inbox.nextId == old(inbox.nextId) + |course.students|
    ensures exists i ::
      0 <= i < |db.modules| && db.modules[i].id == l.moduleId && db.modules[i].courseId in db.courses
      && course == db.courses[db.modules[i].courseId]
    ensures inbox.rows ==
      old(inbox.rows) + FanOut(course.students, LessonMessage(saved.title, course.title), now, old(inbox.nextId))
    ensures inbox.queue ==
      old(inbox.queue) + IdsOf(FanOut(course.students, LessonMessage(saved.title, course.title), now, old(inbox.nextId)))
    ensures course.students == [] ==> inbox.rows == old(inbox.rows) && inbox.queue == old(inbox.queue)
  {
    ghost var moduleIds := db.ModuleIds();
    saved := db.SaveLesson(l, true);
    assert db.ModuleIds() == moduleIds;
    course := db.CourseOfModule(l.moduleId);
    NotifyStudents(inbox, course.students, LessonMessage(saved.title, course.title), now);
  }

  /** The loop of `perform_create`: for each student in turn, create the notification
      and queue its delivery job. */
  method NotifyStudents(inbox: Inbox, students: seq<UserId>, message: string, now: nat)
    requires inbox.Valid()
    modifies inbox
    ensures inbox.Valid()
    ensures inbox.rows == old(inbox.rows) + FanOut(students, message, now, old(inbox.nextId))
    ensures inbox.queue == old(inbox.queue) + IdsOf(FanOut(students, message, now, old(inbox.nextId)))
    ensures inbox.nextId == old(inbox.nextId) + |students|
  {
    var k := 0;
    while k < |students|
      invariant 0 <= k <= |students|
      invariant inbox.Valid()
      invariant inbox.nextId == old(inbox.nextId) + k
      invariant inbox.rows == old(inbox.rows) + FanOut(students[..k], message, now, old(inbox.nextId))
      invariant inbox.queue == old(inbox.queue) + IdsOf(FanOut(students[..k], message, now, old(inbox.nextId)))
    {
      var n := inbox.Create(students[k], message, now, false);
      inbox.Enqueue(n.id);
      assert students[..k + 1][..k] == students[..k];
      k := k + 1;
    }
    assert students[..k] == students;
  }
}
