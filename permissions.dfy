/** Write authorisation: the permission classes of the REST endpoints and the
    owner resolution over the content hierarchy. */
module Permissions {
  import opened Common
  import opened Accounts

  /** The read-only methods of section 9.2.1 of RFC 9110 that the framework treats as safe. */
  const SafeMethods: seq<string> := ["GET", "HEAD", "OPTIONS"]

  predicate IsSafe(verb: string)
  {
    verb in SafeMethods
  }

  /** `request.user`: absent (None), the anonymous user (truthy but not
      authenticated), or a signed-in account with its role. */
  datatype Requester = NoUser | Anonymous | SignedIn(id: UserId, role: Role)

  predicate IsAuthenticated(r: Requester)
  {
    r.SignedIn?
  }

  // The content hierarchy as seen from one object: each object carries its parent
  // link, and a link is None when its foreign key is unset.
  datatype CourseLink = CourseLink(author: UserId)
  datatype ModuleLink = ModuleLink(parent: Option<CourseLink>)
  datatype LessonLink = LessonLink(parent: Option<ModuleLink>)
  datatype QuizLink = QuizLink(parent: Option<LessonLink>)
  datatype QuestionLink = QuestionLink(parent: Option<QuizLink>)

  datatype Node =
    | CourseNode(author: UserId)
    | ModuleNode(ofCourse: Option<CourseLink>)
    | LessonNode(ofModule: Option<ModuleLink>)
    | QuizNode(ofLesson: Option<LessonLink>)
    | QuestionNode(ofQuiz: Option<QuizLink>)
    | AnswerNode(ofQuestion: Option<QuestionLink>)

  /** The outcome of a permission check; Raised is an exception escaping the check. */
  datatype Verdict = Granted | Denied | Raised

  /** What the owner lookup finds: an author, no recognised link, or a chain that
      raises because a later link is unset. */
  datatype Ownership = Owner(author: UserId) | Unowned | Broken

  /** `IsAdmin.has_permission`. */
  predicate IsAdmin(r: Requester)
    ensures IsAdmin(r) <==> r.SignedIn? && r.role == Admin
  {
    !r.NoUser? && IsAuthenticated(r) && r.role == Admin
  }

  /** `IsAdminOrReadOnly.has_permission`. */
  predicate IsAdminOrReadOnly(r: Requester, verb: string)
    ensures IsSafe(verb) ==> IsAdminOrReadOnly(r, verb)
    ensures !IsSafe(verb) ==> (IsAdminOrReadOnly(r, verb) <==> r.SignedIn? && r.role == Admin)
  {
    IsSafe(verb) || IsAdmin(r)
  }

  /** `IsAuthorOrReadOnly.has_permission`. */
  predicate IsAuthorOrReadOnly(r: Requester, verb: string)
    ensures IsSafe(verb) ==> IsAuthorOrReadOnly(r, verb)
    ensures !IsSafe(verb) ==> (IsAuthorOrReadOnly(r, verb) <==> r.SignedIn? && r.role != Student)
  {
    assert r.SignedIn? ==> (r.role in [Instructor, Admin] <==> r.role != Student);
    IsSafe(verb) || (!r.NoUser? && IsAuthenticated(r) && r.role in [Instructor, Admin])
  }

  /** The `if/elif` chain of attribute lookups: only a module (`course`), a lesson
      (`module`) and a quiz (`lesson`) have one of the three attributes; a first link
      that is unset makes `hasattr` false, a later unset link raises. */
  function ResolveAuthor(obj: Node): (o: Ownership)
    ensures o.Owner? ==> obj.ModuleNode? || obj.LessonNode? || obj.QuizNode?
    ensures o.Broken? <==>
      ((obj.LessonNode? && obj.ofModule.Some?) || (obj.QuizNode? && obj.ofLesson.Some?)) && ChainAuthor(obj).None?
  {
    match obj
    case ModuleNode(Some(c)) => Owner(c.author)
    case LessonNode(Some(m)) =>
      if m.parent.Some? then Owner(m.parent.value.author) else Broken
    case QuizNode(Some(l)) =>
      if l.parent.None? then Broken
      else if l.parent.value.parent.None? then Broken
      else Owner(l.parent.value.parent.value.author)
    case _ => Unowned
  }

  /** `IsAuthorOrReadOnly.has_object_permission`. */
  function AuthorObjectPermission(r: Requester, verb: string, obj: Node): (v: Verdict)
    ensures v == Granted <==>
      IsSafe(verb) || (r.SignedIn? && (r.role == Admin || ResolveAuthor(obj) == Owner(r.id)))
    ensures v == Raised <==>
      !IsSafe(verb) && (r.NoUser? || (!(r.SignedIn? && r.role == Admin) && ResolveAuthor(obj).Broken?))
  {
    if IsSafe(verb) then Granted
    else if r.NoUser? then Raised
    else if IsAuthenticated(r) && r.role == Admin then Granted
    else
      match ResolveAuthor(obj)
      case Unowned => Denied
      case Broken => Raised
      case Owner(a) => if IsAuthenticated(r) && r.id == a then Granted else Denied
  }

  /** The author reached by following every parent link up to the course: the chain
      the hierarchy defines, independently of which attributes the check looks at. */
  function ChainAuthor(obj: Node): Option<UserId>
  {
    match obj
    case CourseNode(a) => Some(a)
    case ModuleNode(c) => CourseAuthor(c)
    case LessonNode(m) => ModuleAuthor(m)
    case QuizNode(l) => LessonAuthor(l)
    case QuestionNode(q) => QuizAuthor(q)
    case AnswerNode(q) => if q.Some? then QuizAuthor(q.value.parent) else None
  }

  function QuizAuthor(q: Option<QuizLink>): Option<UserId>
  {
    if q.Some? then LessonAuthor(q.value.parent) else None
  }

  function CourseAuthor(c: Option<CourseLink>): Option<UserId>
  {
    if c.Some? then Some(c.value.author) else None
  }

  function ModuleAuthor(m: Option<ModuleLink>): Option<UserId>
  {
    if m.Some? then CourseAuthor(m.value.parent) else None
  }

  function LessonAuthor(l: Option<LessonLink>): Option<UserId>
  {
    if l.Some? then ModuleAuthor(l.value.parent) else None
  }

  /** Where the attribute lookup finds an author, it is the author at the top of the
      object's chain; for modules, lessons and quizzes with a complete chain it finds
      one; courses, questions and answers never resolve, whatever their chain. */
  lemma ResolveAuthorAgreesWithChain(obj: Node)
    ensures ResolveAuthor(obj).Owner? ==> ChainAuthor(obj) == Some(ResolveAuthor(obj).author)
    ensures (obj.ModuleNode? || obj.LessonNode? || obj.QuizNode?) && ChainAuthor(obj).Some? ==>
      ResolveAuthor(obj) == Owner(ChainAuthor(obj).value)
    ensures (obj.CourseNode? || obj.QuestionNode? || obj.AnswerNode?) ==> ResolveAuthor(obj) == Unowned
    ensures ResolveAuthor(obj).Broken? <==>
      ((obj.LessonNode? && obj.ofModule.Some?) || (obj.QuizNode? && obj.ofLesson.Some?)) && ChainAuthor(obj).None?
  {
  }

  /** Which permission class an endpoint uses. */
  datatype Policy = AdminOrReadOnly | AuthorOrReadOnly

  datatype Endpoint =
    | Categories | Courses | Modules | Lessons | Quizzes | Questions | Answers | Notifications

  function PolicyOf(e: Endpoint): Policy
  {
    match e
    case Categories => AdminOrReadOnly
    case Notifications => AdminOrReadOnly
    case _ => AuthorOrReadOnly
  }

  /** Categories and notifications are admin-or-read-only; every content endpoint
      is author-or-read-only. */
  lemma EndpointPolicies(e: Endpoint)
    ensures PolicyOf(e) == AdminOrReadOnly <==> (e == Categories || e == Notifications)
  {
  }

  function HasPermission(p: Policy, r: Requester, verb: string): bool
  {
    match p
    case AdminOrReadOnly => IsAdminOrReadOnly(r, verb)
    case AuthorOrReadOnly => IsAuthorOrReadOnly(r, verb)
  }

  /** `IsAdminOrReadOnly` keeps the framework's default object check, which grants. */
  function HasObjectPermission(p: Policy, r: Requester, verb: string, obj: Node): Verdict
  {
    match p
    case AdminOrReadOnly => Granted
    case AuthorOrReadOnly => AuthorObjectPermission(r, verb, obj)
  }

  /** The framework's order: the view-level check on every request, the object-level
      check only on requests about one existing object. */
  function Authorize(p: Policy, r: Requester, verb: string, obj: Option<Node>): (v: Verdict)
    ensures v == Granted <==>
      || IsSafe(verb)
      || (r.SignedIn? && r.role == Admin)
      || (p == AuthorOrReadOnly && r.SignedIn? && r.role == Instructor
          && (obj.None? || ResolveAuthor(obj.value) == Owner(r.id)))
    ensures v == Raised ==>
      p == AuthorOrReadOnly && r.SignedIn? && obj.Some? && ResolveAuthor(obj.value).Broken?
  {
    if !HasPermission(p, r, verb) then Denied
    else if obj.None? then Granted
    else HasObjectPermission(p, r, verb, obj.value)
  }

  // ---- Properties of the object-level check ----

  /** An admin is granted without the object being inspected: the verdict is the
      same for any two objects. */
  lemma AdminSkipsOwnerLookup(id: UserId, verb: string, a: Node, b: Node)
    ensures AuthorObjectPermission(SignedIn(id, Admin), verb, a) == Granted
    ensures AuthorObjectPermission(SignedIn(id, Admin), verb, a)
         == AuthorObjectPermission(SignedIn(id, Admin), verb, b)
  {
  }

  /** For everyone but an admin, an unsafe request is granted exactly when the
      resolved author is the requester, denied when no author resolves or it is
      someone else, and raises exactly on a lesson or quiz whose first link is set
      but whose chain does not reach a course. */
  lemma OwnerDecides(r: Requester, verb: string, obj: Node)
    requires !IsSafe(verb) && !r.NoUser?
    requires !(r.SignedIn? && r.role == Admin)
    ensures AuthorObjectPermission(r, verb, obj) == Granted <==>
      (r.SignedIn? && ResolveAuthor(obj) == Owner(r.id))
    ensures AuthorObjectPermission(r, verb, obj) == Raised <==>
      ((obj.LessonNode? && obj.ofModule.Some?) || (obj.QuizNode? && obj.ofLesson.Some?)) && ChainAuthor(obj).None?
  {
  }

  /** Courses, questions and answers are closed to every non-admin writer, the
      course's own author included. */
  lemma UnownedKindsDenied(r: Requester, verb: string, obj: Node)
    requires !IsSafe(verb) && !r.NoUser?
    requires !(r.SignedIn? && r.role == Admin)
    requires obj.CourseNode? || obj.QuestionNode? || obj.AnswerNode?
    ensures AuthorObjectPermission(r, verb, obj) == Denied
  {
  }

  // ---- Properties of the combined check ----

  lemma SafeAlwaysAuthorized(p: Policy, r: Requester, verb: string, obj: Option<Node>)
    requires IsSafe(verb)
    ensures Authorize(p, r, verb, obj) == Granted
  {
  }

  /** Students, anonymous users and a missing user never write content. */
  lemma NonInstructorsNeverWrite(r: Requester, verb: string, obj: Option<Node>)
    requires !IsSafe(verb)
    requires !r.SignedIn? || r.role == Student
    ensures Authorize(AuthorOrReadOnly, r, verb, obj) == Denied
    ensures Authorize(AdminOrReadOnly, r, verb, obj) == Denied
  {
  }

  /** An admin may write anything through either policy. */
  lemma AdminAlwaysAuthorized(p: Policy, id: UserId, verb: string, obj: Option<Node>)
    ensures Authorize(p, SignedIn(id, Admin), verb, obj) == Granted
  {
  }

  /** Through the framework's order the `None.is_authenticated` fault is unreachable:
      a missing user is stopped by the view-level check. */
  lemma MissingUserNeverRaises(p: Policy, verb: string, obj: Option<Node>)
    ensures Authorize(p, NoUser, verb, obj) != Raised
  {
  }

  /** An instructor writes a module, lesson or quiz whose chain is complete exactly
      when the course at the top of the chain is theirs. */
  lemma InstructorWritesOwnContent(id: UserId, verb: string, obj: Node)
    requires !IsSafe(verb)
    requires obj.ModuleNode? || obj.LessonNode? || obj.QuizNode?
    requires ChainAuthor(obj).Some?
    ensures Authorize(AuthorOrReadOnly, SignedIn(id, Instructor), verb, Some(obj)) == Granted
        <==> ChainAuthor(obj) == Some(id)
    ensures Authorize(AuthorOrReadOnly, SignedIn(id, Instructor), verb, Some(obj)) != Raised
  {
    ResolveAuthorAgreesWithChain(obj);
  }

  /** A create request carries no object, so the owner check never runs: any
      instructor may add a module, lesson, quiz, question or answer under a course
      that is someone else's, although the same instructor may not change the
      existing module of that course. */
  lemma CreateSkipsOwnerCheck(a: UserId, b: UserId, e: Endpoint)
    requires a != b
    requires e != Categories && e != Notifications
    ensures Authorize(PolicyOf(e), SignedIn(b, Instructor), "POST", None) == Granted
    ensures Authorize(PolicyOf(e), SignedIn(b, Instructor), "PUT", Some(ModuleNode(Some(CourseLink(a))))) == Denied
  {
  }

  /** Instructor A owns course C; instructor B may not change C's modules, an admin may. */
  lemma ModuleWriteScenario(a: UserId, b: UserId)
    requires a != b
    ensures var m := ModuleNode(Some(CourseLink(a)));
      && Authorize(AuthorOrReadOnly, SignedIn(b, Instructor), "PUT", Some(m)) == Denied
      && Authorize(AuthorOrReadOnly, SignedIn(a, Instructor), "PUT", Some(m)) == Granted
      && Authorize(AuthorOrReadOnly, SignedIn(b, Admin), "PUT", Some(m)) == Granted
  {
  }
}
