# SkillHub core in Dafny

SkillHub is an e-learning backend. Instructors publish courses made of modules and
lessons, with quizzes, questions and answers under the lessons. Students enrol in
courses, write reviews, and receive a notification email whenever a lesson is added
to one of their courses. This project models the parts of the backend that make
decisions or keep bookkeeping, and proves what they promise:

- `Permissions` (permissions.dfy): the three permission classes of the REST
  endpoints. Each takes the requester (no user, the anonymous user, or a signed-in
  account with its role) and the HTTP method. The object-level check also takes the
  target object in the content hierarchy. It resolves the object's owner through its
  parent links, and it may raise when a deeper link is unset.
- `Content` (content.dfy): course levels, and the course, module and lesson tables
  as a class `ContentDb`. `Module.save` and `Lesson.save` give a new row with order 0
  the position after its siblings. The rule is stated once, as `AssignedOrder`, and
  computed by a loop, `HighestOrder`.
- `Notifications` (notifications.dfy): the notification table and the queue of
  delivery-job ids, as a class `Inbox`. It covers the delivery job, which marks a
  row sent only when the email send succeeds, the per-user listing (newest first),
  and the create endpoint.
- `CourseViews` (courseviews.dfy): creating a course stamps the requester as author,
  after the permission check and the serializer's field validation (stripped title,
  existing category, level choice). Creating a lesson fans out one notification and
  one queued job per enrolled student.
- `Reviews` (reviews.dfy): the review field rules (an existing course; rating 1 to 5
  inclusive; title and content stripped, required and bounded) and the display
  string "<title> (f<rating>/5)". Its inverse is proved.
- `Accounts` (accounts.dfy): roles, the user manager's defaults and its empty-email
  rejection, the unique email column (class `UserDirectory`), and the display
  string "User <email> (<Label>)".
- `Common` (common.dfy): `Option`, `Result`, decimal rendering of integers with its
  inverse, and the whitespace stripping (`str.strip()`) the serializers' text fields
  apply.

Three behaviours of the object-level permission check are easy to misread; the
model keeps them as the code has them:

- `IsAuthorOrReadOnly.has_object_permission` only looks for `course`, `module` and
  `lesson` attributes. A Course has none of these, so an unsafe request on a Course
  (and on a Question or an Answer) is denied to every non-admin, its author included
  (`Permissions.UnownedKindsDenied`).
- An unset first link makes `hasattr` false, and the object falls through to the
  next branch. An unset deeper link raises out of the check. For example, this
  happens when `obj.module.course` is read on a lesson whose module has no course.
  The model reports that as the verdict `Raised` (`Permissions.OwnerDecides`).
- `request.user.is_authenticated` on a missing user (`None`) raises in the object
  check. This is also `Raised`. That case is only reachable through the object check
  alone: the endpoint's `has_permission` turns a missing user away first
  (`Permissions.MissingUserNeverRaises`).

## Model

| member | source | states |
|---|---|---|
| Permissions.IsAdmin | skillhub/core/permissions.py:5-10 | holds iff the requester is signed in with the admin role |
| Permissions.IsAdminOrReadOnly | skillhub/core/permissions.py:13-21 | every safe method passes for anyone; an unsafe method passes iff the requester is a signed-in admin |
| Permissions.IsAuthorOrReadOnly | skillhub/core/permissions.py:24-32 | every safe method passes; an unsafe method passes iff the requester is signed in as instructor or admin, so students, anonymous users and a missing user are refused |
| Permissions.AuthorObjectPermission | skillhub/core/permissions.py:34-53 | granted iff the method is safe, or the requester is a signed-in admin, or the requester is signed in and is the resolved author; raises iff the method is unsafe and either there is no user or, for a non-admin, the link chain breaks |
| Permissions.Authorize | skillhub/core/permissions.py:13-53 | the view check then, for a request about one object, the object check: granted iff the method is safe, or the requester is a signed-in admin, or the policy is author-or-read-only and a signed-in instructor either creates (no object) or owns the object; raising only for a signed-in requester on a broken chain |
| Permissions.CreateSkipsOwnerCheck | skillhub/core/permissions.py:24-32 | a create request has no object, so any instructor may POST a module, lesson, quiz, question or answer under someone else's course, while a PUT on that course's module is denied |
| Permissions.AdminSkipsOwnerLookup | skillhub/core/permissions.py:38-39 | a signed-in admin is granted every object operation, and the verdict does not depend on the object |
| Permissions.ResolveAuthor | skillhub/core/permissions.py:41-51 | an owner is found only for modules, lessons and quizzes; the lookup raises exactly for a lesson or quiz whose first link is set but whose chain does not reach a course |
| Permissions.ResolveAuthorAgreesWithChain | skillhub/core/permissions.py:41-51 | the first-match lookup agrees with following course, module.course and lesson.module.course to the author; Course, Question and Answer resolve to no owner; the lookup raises iff a lesson or quiz has its first link set and its chain reaches no course |
| Permissions.OwnerDecides | skillhub/core/permissions.py:41-53 | for an unsafe request by a non-admin: granted iff the requester is signed in and is the resolved author; raised iff the object is a lesson or quiz whose first link is set and whose chain reaches no course |
| Permissions.UnownedKindsDenied | skillhub/core/permissions.py:50-51 | an unsafe request on a Course, Question or Answer by anyone but a signed-in admin is denied |
| Permissions.InstructorWritesOwnContent | skillhub/core/permissions.py:53 | on a module, lesson or quiz whose parent chain is complete, an instructor's unsafe request never raises and is granted iff the chain leads to that instructor |
| Permissions.ModuleWriteScenario | skillhub/core/permissions.py:41-53 | on a module of a course by author a, instructor a may PUT and a different instructor b is denied |
| Permissions.SafeAlwaysAuthorized | skillhub/core/permissions.py:13-36 | with either policy, a safe method passes both the view check and the object check |
| Permissions.NonInstructorsNeverWrite | skillhub/core/permissions.py:24-32 | with either policy, an unsafe request from no user, an anonymous user or a student is denied |
| Permissions.AdminAlwaysAuthorized | skillhub/core/permissions.py:13-39 | with either policy, a signed-in admin is granted every request on every object |
| Permissions.MissingUserNeverRaises | skillhub/core/permissions.py:13-32 | a request with no user never reaches the raising object check: the view check refuses or grants first |
| Permissions.EndpointPolicies | skillhub/course/views.py:32-156 | the category and notification endpoints (the latter at skillhub/notification/views.py:22) use admin-or-read-only; course, module, lesson, quiz, question and answer endpoints use author-or-read-only |
| Content.ParseLevel | skillhub/course/models.py:37-52 | a level is accepted iff it is beginner, intermediate or advanced, and reads back as the stored value; anything else is an error keyed "level" |
| Content.LevelRoundTrip | skillhub/course/models.py:37-41 | every level choice validates to itself |
| Content.SiblingOrders | skillhub/course/models.py:102 | the orders of the rows under one parent: an order is listed iff some row with that parent has it |
| Content.HighestOrder | skillhub/course/models.py:101-104 | the loop finds the highest sibling order, or none when there are no siblings |
| Content.AssignedOrder | skillhub/course/models.py:100-104 | a non-zero order, or any order on update, is kept; an auto order is at least 1, above every sibling, one past the highest sibling, and 1 without siblings |
| Content.AutoOrderingIsConsecutive | skillhub/course/models.py:100-104 | when a parent's orders are 1..k, the next row added with order 0 gets k+1 and the orders become 1..k+1, so rows added with order 0 are numbered 1, 2, 3, ... |
| Content.AutoOrderIsLast | skillhub/course/models.py:104 | a row added with order 0 sorts after every sibling already stored |
| Content.OtherParentsIgnored | skillhub/course/models.py:102 | rows under other parents do not change the order assigned under this one |
| Content.ContentDb.AddCourse | skillhub/course/models.py:24-59 | a new course row with a fresh id and no students; the course counter advances by one; the module and lesson tables and counters are unchanged |
| Content.ContentDb.SaveModule | skillhub/course/models.py:95-105 | on insert, the module is appended with a fresh id and the assigned order and the module counter advances by one; on update, it replaces the stored row, keeps the given order and leaves the counter; the other tables and counters are unchanged |
| Content.ContentDb.SaveLesson | skillhub/course/models.py:135-145 | the same for lessons, with the lesson's module as the parent and the lesson counter |
| Content.ContentDb.CourseOfModule | skillhub/course/views.py:99 | the course a stored module points to |
| CourseViews.CourseFieldErrors | skillhub/course/models.py:49-52 | each course field is reported iff it breaks its rule: the stripped title blank, over 255 characters or holding a null character; the stripped description holding a null character; the category not stored; the level not one of the choices |
| CourseViews.CreateCourse | skillhub/course/views.py:47-56 | refused unless the author-or-read-only check grants a POST; once granted, created iff no field fails, otherwise every failing field is reported; on success the author is the requester, who is an instructor or admin, title and description are stored stripped, the course has no students and the course counter advances by one; nothing is stored and no counter moves on an error |
| CourseViews.CreateCourseGate | skillhub/course/views.py:47-49 | a student's POST to the course endpoint is denied and an instructor's granted |
| CourseViews.UnknownCategoryAndLevelReported | skillhub/course/serializers.py:56 | an unknown category and the level "expert" are both reported, and nothing else |
| CourseViews.BlankTitleReported | skillhub/course/models.py:49 | a whitespace-only title is blank and is the only field reported |
| CourseViews.LessonMessage | skillhub/course/views.py:103 | the message is "New lesson ", the lesson title, " added to course ", the course title |
| CourseViews.FanOut | skillhub/course/views.py:99-104 | one unsent row per student, in the order the student query returns them, with consecutive ids from the next id |
| CourseViews.FanOutOnePerStudent | skillhub/course/views.py:99-104 | the recipients of the fan-out are exactly the enrolled students (K students give K rows), each row unsent with the lesson message |
| CourseViews.FanOutIdsFresh | skillhub/course/views.py:100-105 | the fan-out rows have distinct ids, none below the table's next id |
| CourseViews.FanOutKeepsIdsUnique | skillhub/course/views.py:100-105 | appending the fan-out to the table keeps ids unique |
| CourseViews.FanOutJobsDeliverAll | skillhub/course/views.py:100-105 | running the queued jobs with successful sends marks every fan-out row sent and leaves the older rows as they were |
| CourseViews.PerformCreateLesson | skillhub/course/views.py:92-105 | the lesson is saved with its assigned order; the table gains exactly the fan-out rows and the queue exactly their ids, in order; with no students nothing is added or queued; earlier rows are unchanged; the lesson counter advances by one and the notification counter by the number of students, the other counters are unchanged |
| CourseViews.NotifyStudents | skillhub/course/views.py:100-105 | the loop appends exactly the fan-out rows to the table and their ids to the queue, in student order, and advances the next id by the number of students |
| Notifications.Lookup | skillhub/notification/tasks.py:32 | finds a row with the id iff one is stored |
| Notifications.Outcome | skillhub/notification/tasks.py:31-50 | not found iff no row has the id or its user is unknown; otherwise the email carries the subject, the row's message and the user's address, and is delivered only when the send succeeds and reported failed only when it does not |
| Notifications.MarkSent | skillhub/notification/tasks.py:40-41 | the rows with the id become sent; every other field and row is unchanged |
| Notifications.Step | skillhub/notification/tasks.py:31-41 | one job keeps the table's length and every field but `sent`; a sent row stays sent, and a flag changes only on the job's row when the send is delivered |
| Notifications.RunJobs | skillhub/notification/tasks.py:12-50 | any sequence of jobs keeps the table's length and every field but `sent`, and a sent row stays sent |
| Notifications.DeliveryOutcomes | skillhub/notification/tasks.py:31-50 | an unknown id is reported and changes nothing; otherwise the message goes to the user's email with subject "notification.title", and the row is sent afterwards iff it already was or the send succeeded |
| Notifications.StepOnlyMarksSent | skillhub/notification/tasks.py:32-41 | one job changes only the sent flag, only of the looked-up row, only to true, only when the send succeeds |
| Notifications.ResendIsHarmless | skillhub/notification/tasks.py:31-41 | re-running a job for a row already sent sends again and leaves the table as it was |
| Notifications.SentAfterJobs | skillhub/notification/tasks.py:31-50 | after any sequence of jobs, a row is sent iff it was before or some job delivered it; its other fields never change |
| Notifications.SentIsMonotone | skillhub/notification/tasks.py:40-41 | a sent row stays sent whatever jobs run |
| Notifications.Inbox.Deliver | skillhub/notification/tasks.py:12-50 | the job on the stored table reports the outcome and leaves the table as the delivery step defines; the queue is unchanged |
| Notifications.OwnedBy | skillhub/notification/views.py:29 | the user's rows, each as often as stored, and no other rows |
| Notifications.SortNewestFirst | skillhub/notification/views.py:29-31 | a permutation of its input, ordered by creation time, newest first |
| Notifications.Listing | skillhub/notification/views.py:24-31 | only the requester's notifications, each as often as stored, newest first |
| Notifications.ListingAfterFirstCreate | skillhub/notification/tests/test_views.py:43-56 | after a user's first notification is created, their listing is exactly that notification |
| Notifications.Recipient | skillhub/notification/views.py:39-40 | a present, non-zero requested user id wins; a missing or zero one falls back to the requester |
| Notifications.Inbox.Create | skillhub/course/views.py:101-104 | one new row with a fresh id and the given sent flag (false for the fan-out); the counter advances by one; nothing else changes |
| Notifications.Inbox.Enqueue | skillhub/course/views.py:105 | the id is appended to the job queue; the table is unchanged |
| Notifications.Inbox.PerformCreate | skillhub/notification/views.py:33-42 | one new row for the recipient carrying the request's sent flag, exactly one queued job carrying its id whatever that flag says, and the counter advanced by one |
| Reviews.FieldErrors | skillhub/review/models.py:18-23 | each field is reported iff it breaks its rule: the course id names a stored course; title and content, once stripped, not blank, within 100 and 500 characters and free of null characters; rating within 1..5 |
| Reviews.NewReview | skillhub/review/serializers.py:30-38 | a review is built iff every field is valid, with the course and rating given and the title and content stripped; on an error the failing fields are reported and nothing is built |
| Reviews.WhitespaceOnlyRejected | skillhub/review/models.py:18-19 | a title or content made only of whitespace is blank and rejected |
| Reviews.StrippedBeforeSaving | skillhub/review/models.py:18-19 | surrounding whitespace is stripped from title and content and not stored |
| Reviews.UnknownCourseRejected | skillhub/review/serializers.py:31-33 | a course id naming no stored course is reported on "course_id" |
| Reviews.ReviewString | skillhub/review/models.py:36-37 | the display string starts with the title and ends with "/5)", and is six characters plus the rendered rating longer than the title |
| Reviews.RatingBoundsInclusive | skillhub/review/models.py:21-23 | exactly the ratings 1, 2, 3, 4 and 5 are valid |
| Reviews.RatingTenRejected | skillhub/review/tests/test_serializers.py:37-47 | rating 10 is rejected with an error on "rating" |
| Reviews.RatingSixRejected | skillhub/review/tests/test_views.py:49-59 | rating 6 is rejected with only the rating in error, so no review is built |
| Reviews.RatingFiveAccepted | skillhub/review/tests/test_views.py:40-47 | rating 5 is accepted and keeps the course, content and rating |
| Reviews.ReviewStringRoundTrip | skillhub/review/models.py:36-37 | reading the display string back gives the title and the rating, whatever the title contains |
| Reviews.ReviewStringInjective | skillhub/review/models.py:36-37 | two reviews display alike only when title and rating agree |
| Common.IntStringRoundTrip | skillhub/review/models.py:37 | the decimal rendering of the rating reads back as the rating |
| Common.Trim | skillhub/review/serializers.py:36-38 | the stripped text is no longer than the input and neither starts nor ends with whitespace |
| Common.TrimStrips | skillhub/review/serializers.py:36-38 | the stripped text is empty iff the input is all whitespace, and otherwise is a slice of the input with only whitespace around it |
| Common.TrimIdempotent | skillhub/review/serializers.py:36-38 | stripping twice is stripping once |
| Accounts.ParseRole | skillhub/user/models.py:80-87 | a role value is accepted iff it is admin, instructor or student, and reads back as that value |
| Accounts.RoleChoicesComplete | skillhub/user/models.py:80-83 | every role is among the choices and its stored value parses back to it |
| Accounts.NewUser | skillhub/user/models.py:33-34 | the row keeps the id, email and password; each field not passed takes the model default (student, active, not staff, not superuser), a passed one its value |
| Accounts.NewUserDefaults | skillhub/user/models.py:85-90 | a user created without extra fields is an active, non-staff, non-superuser student with the given email |
| Accounts.NewUserKeepsExtraFields | skillhub/user/models.py:32-35 | every extra field the caller passes is stored as given |
| Accounts.SuperuserFields | skillhub/user/models.py:55-57 | after the setdefault calls, staff, superuser and role are set and the other fields are as passed |
| Accounts.SuperuserDefaults | skillhub/user/models.py:55-58 | a superuser is staff, superuser and admin unless the caller passed another value, which wins |
| Accounts.UserString | skillhub/user/models.py:101-102 | the display string is "User <", then the email, then "> (", the role label and ")" |
| Accounts.UserStringParts | skillhub/user/models.py:101-102 | the display string embeds the email after "User <", and its second-to-last character is the last character of the role label |
| Accounts.UserStringDetermines | skillhub/user/models.py:101-102 | equal display strings mean equal email and role |
| Accounts.UserDirectory.EmailOf | skillhub/user/models.py:85 | the stored user's email, or none when there is no such user |
| Accounts.UserDirectory.CreateUser | skillhub/user/models.py:15-36 | a missing or empty email is rejected and nothing is stored; for a non-empty email, it is rejected as a duplicate iff the normalised email is already stored and succeeds iff it is not; on success the new user with a fresh id, the normalised email and every passed field is added, and emails stay unique |
| Accounts.UserDirectory.CreateSuperuser | skillhub/user/models.py:38-58 | the same cases (empty email, duplicate iff the normalised email is stored, success iff it is not), with staff, superuser and admin role defaulted |

## Left out

- Average course rating (`get_avg_rate`, `avg_rate`): a floating-point mean with rounding.
- JWT login, refresh, logout and cookies: third-party token handling.
- Email transport and logging: the send outcome is an input flag of each job, and a log line adds nothing to the state. The exception raised when a send fails is the `SendFailed` outcome.
- Celery: `.delay` appends the id to the `Inbox.queue` sequence. Workers, retries and concurrency are not modelled; running jobs is the `RunJobs` function.
- The admin panel, URL routing and serializer field declarations: framework configuration.
- `normalize_email` and `set_password` are function parameters of `CreateUser`, since their source is not part of this model. `validate_password` is not part of this model.
- The clock: `created_at` is a `now` parameter.
- Category, Quiz, Question and Answer storage: plain CRUD. Only their permission rules are modelled.
- Enrolment: how students join a course is not modelled. The fan-out reads the course row's student list.
- The review endpoint's `IsAuthenticated` permission and its `perform_create`: `NewReview` takes the user as a parameter. Review and course `created_at` ordering is not modelled.
- Notification `message` max_length 255, title lengths of modules and lessons: not enforced by the model.
- CourseViews.CreateCourse: the description is always passed; an absent description, stored as the empty string, is the same as passing "". Non-string JSON values for the text fields are excluded by the parameter types.
- Permissions: a link that points to a deleted row is not modelled. Links are either set, to a row with an author, or unset.
- Notifications.Listing: rows with equal `created_at` come back in an order the database chooses. The model promises contents and newest-first order only, not a particular order among ties.
- Content.ContentDb.SaveModule: an update requires the row to be stored. Saving a row that was deleted meanwhile (which Django turns into an insert) is not modelled.
- Content.ContentDb.SaveLesson: the same precondition as SaveModule on updates. An insert does not check that the lesson's module exists.
- CourseViews.PerformCreateLesson: requires the lesson's module to be stored, which the serializer's foreign-key validation ensures before `perform_create` runs.
- Accounts.UserDirectory.CreateUser: the role is one of the three choices by type. The manager would store any role string, since choices are only checked by form and serializer validation.
- CourseViews.NotifyStudents: every row of one fan-out gets the same `now`, while each `create` call in the code stamps its own `created_at`.
- Notifications.Inbox.PerformCreate: the serializer requires `user` to name a stored user before `perform_create` runs. That existence check is not modelled, and the model keeps the view's fallback to the requester (`Recipient`), which that check makes unreachable through the endpoint.
- Listing for an anonymous requester (the ORM filter on an anonymous user) is not modelled. The listing takes a user id.
