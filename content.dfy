/** Content: course levels, the course/module/lesson tables and the rule that
    gives a new module or lesson its position among its siblings. */
module Content {
  import opened Common

  /** `Course.LEVEL_CHOICES`. */
  datatype Level = Beginner | Intermediate | Advanced

  function LevelValue(l: Level): string
  {
    match l
    case Beginner => "beginner"
    case Intermediate => "intermediate"
    case Advanced => "advanced"
  }

  /** The field name a rejected level is reported under. */
  const LevelField: string := "level"

  /** Validation of a submitted level against the choices; any other value is an
      error keyed "level". */
  function ParseLevel(s: string): (r: Result<Level, string>)
    ensures r.Ok? <==> (s == "beginner" || s == "intermediate" || s == "advanced")
    ensures r.Ok? ==> LevelValue(r.value) == s
    ensures r.Err? ==> r.error == LevelField
  {
    if s == "beginner" then Ok(Beginner)
    else if s == "intermediate" then Ok(Intermediate)
    else if s == "advanced" then Ok(Advanced)
    else Err(LevelField)
  }

  lemma LevelRoundTrip(l: Level)
    ensures ParseLevel(LevelValue(l)) == Ok(l)
  {
  }

  datatype Course = Course(
    id: nat,
    author: UserId,
    title: string,
    description: string,
    category: nat,
    level: Level,
    students: seq<UserId>)

  datatype Module = Module(id: nat, courseId: nat, title: string, order: nat)

  datatype Lesson = Lesson(id: nat, moduleId: nat, title: string, order: nat)

  // ---- The position rule, stated once for both sibling tables ----

  /** A row as the position rule sees it: its parent key and its order. */
  datatype Slot = Slot(parent: nat, order: nat)

  function ModuleSlots(ms: seq<Module>): (r: seq<Slot>)
    ensures |r| == |ms|
    ensures forall i :: 0 <= i < |ms| ==> r[i] == Slot(ms[i].courseId, ms[i].order)
  {
    seq(|ms|, i requires 0 <= i < |ms| => Slot(ms[i].courseId, ms[i].order))
  }

  function LessonSlots(ls: seq<Lesson>): (r: seq<Slot>)
    ensures |r| == |ls|
    ensures forall i :: 0 <= i < |ls| ==> r[i] == Slot(ls[i].moduleId, ls[i].order)
  {
    seq(|ls|, i requires 0 <= i < |ls| => Slot(ls[i].moduleId, ls[i].order))
  }

  /** The orders of the rows under `parent`, in table order (`filter(course=...)`). */
  function SiblingOrders(slots: seq<Slot>, parent: nat): (r: seq<nat>)
    ensures |r| <= |slots|
    ensures forall x :: x in r <==> exists i :: 0 <= i < |slots| && slots[i] == Slot(parent, x)
    decreases |slots|
  {
    if slots == [] then []
    else
      var init := slots[..|slots| - 1];
      var last := slots[|slots| - 1];
      assert forall i :: 0 <= i < |init| ==> init[i] == slots[i];
      SiblingOrders(init, parent) + (if last.parent == parent then [last.order] else [])
  }

  /** The largest element of a non-empty sequence. */
  function Max(s: seq<nat>): (m: nat)
    requires |s| > 0
    ensures m in s
    ensures forall x :: x in s ==> x <= m
  {
    if |s| == 1 then s[0]
    else
      var rest := Max(s[1..]);
      assert forall x :: x in s ==> x == s[0] || x in s[1..];
      if s[0] >= rest then s[0] else rest
  }

  /** `order_by("-order").first()`: the highest sibling order, None without siblings. */
  function Highest(orders: seq<nat>): Option<nat>
  {
    if orders == [] then None else Some(Max(orders))
  }

  /** The order `save` stores: a row being added with order 0 is placed one past its
      highest sibling, or first; every other save keeps the order it was given. */
  function AssignedOrder(adding: bool, requested: nat, siblings: seq<nat>): (o: nat)
    ensures !(adding && requested == 0) ==> o == requested
    ensures adding && requested == 0 ==> o >= 1 && forall s :: s in siblings ==> s < o
    ensures adding && requested == 0 && siblings != [] ==> o - 1 in siblings
    ensures adding && requested == 0 && siblings == [] ==> o == 1
  {
    if adding && requested == 0 then
      match Highest(siblings)
      case None => 1
      case Some(h) => h + 1
    else requested
  }

  /** Scans the sibling orders for the highest, as the ordered query does. */
  method HighestOrder(orders: seq<nat>) returns (last: Option<nat>)
    ensures last == Highest(orders)
  {
    last := None;
    var i := 0;
    while i < |orders|
      invariant 0 <= i <= |orders|
      invariant last.None? <==> i == 0
      invariant last.Some? ==> last.value in orders[..i]
      invariant last.Some? ==> forall j :: 0 <= j < i ==> orders[j] <= last.value
    {
      if last.None? || orders[i] > last.value {
        last := Some(orders[i]);
      }
      i := i + 1;
    }
    assert orders[..i] == orders;
    if last.Some? {
      var m := Max(orders);
      assert m <= last.value;
    }
  }

  // ---- Lemmas about the position rule ----

  lemma {:induction false} SiblingOrdersAppend(a: seq<Slot>, b: seq<Slot>, parent: nat)
    ensures SiblingOrders(a + b, parent) == SiblingOrders(a, parent) + SiblingOrders(b, parent)
    decreases |b|
  {
    if b == [] {
      assert a + b == a;
    } else {
      var b' := b[..|b| - 1];
      assert (a + b)[..|a + b| - 1] == a + b';
      assert b[..|b| - 1] == b';
      SiblingOrdersAppend(a, b', parent);
    }
  }

  /** Rows under other parents, wherever they sit in the table, do not change a
      parent's sibling orders, hence not the order assigned under it. */
  lemma OtherParentsIgnored(a: seq<Slot>, x: Slot, b: seq<Slot>, parent: nat)
    requires x.parent != parent
    ensures SiblingOrders(a + [x] + b, parent) == SiblingOrders(a + b, parent)
  {
    SiblingOrdersAppend(a + [x], b, parent);
    SiblingOrdersAppend(a, [x], parent);
    SiblingOrdersAppend(a, b, parent);
    assert [x][..0] == [];
  }

  /** The positions 1..k. */
  function Positions(k: nat): (r: seq<nat>)
    ensures |r| == k
    ensures forall i :: 0 <= i < k ==> r[i] == i + 1
  {
    seq(k, i requires 0 <= i < k => i + 1)
  }

  lemma PositionsSnoc(k: nat)
    ensures Positions(k) + [k + 1] == Positions(k + 1)
  {
    var a, b := Positions(k) + [k + 1], Positions(k + 1);
    assert |a| == |b|;
    forall i | 0 <= i < |a| ensures a[i] == b[i] {
      if i < k { assert a[i] == Positions(k)[i]; }
    }
  }

  /** One past the highest of 1..k is k + 1. */
  lemma NextAfterPositions(k: nat)
    ensures AssignedOrder(true, 0, Positions(k)) == k + 1
  {
    var sib := Positions(k);
    var o := AssignedOrder(true, 0, sib);
    if k > 0 {
      assert sib[k - 1] == k;
      assert k in sib;
      assert k < o;
      assert o - 1 in sib;
      var i :| 0 <= i < k && sib[i] == o - 1;
    }
  }

  /** Appending one row extends its parent's orders by that row's order. */
  lemma SiblingOrdersSnoc(slots: seq<Slot>, x: Slot)
    ensures SiblingOrders(slots + [x], x.parent) == SiblingOrders(slots, x.parent) + [x.order]
  {
    var t := slots + [x];
    assert t[..|t| - 1] == slots;
    assert t[|t| - 1] == x;
  }

  /** When every row under a parent was added with order 0, the parent's orders are
      1, 2, ..., k in insertion order; adding one more row keeps them consecutive. */
  lemma AutoOrderingIsConsecutive(slots: seq<Slot>, parent: nat, k: nat)
    requires SiblingOrders(slots, parent) == Positions(k)
    ensures AssignedOrder(true, 0, SiblingOrders(slots, parent)) == k + 1
    ensures SiblingOrders(slots + [Slot(parent, k + 1)], parent) == Positions(k + 1)
  {
    NextAfterPositions(k);
    SiblingOrdersSnoc(slots, Slot(parent, k + 1));
    PositionsSnoc(k);
  }

  /** A new row with order 0 becomes the unique last row under its parent. */
  lemma AutoOrderIsLast(slots: seq<Slot>, parent: nat)
    ensures var o := AssignedOrder(true, 0, SiblingOrders(slots, parent));
      forall i :: 0 <= i < |slots| && slots[i].parent == parent ==> slots[i].order < o
  {
    var sib := SiblingOrders(slots, parent);
    forall i | 0 <= i < |slots| && slots[i].parent == parent
      ensures slots[i].order in sib
    {
      assert slots[i] == Slot(parent, slots[i].order);
    }
  }

  /** The course, module and lesson tables. */
  class ContentDb {
    var courses: map<nat, Course>
    var modules: seq<Module>
    var lessons: seq<Lesson>
    var nextCourseId: nat
    var nextModuleId: nat
    var nextLessonId: nat

    ghost predicate Valid()
      reads this
    {
      && (forall id :: id in courses ==> courses[id].id == id && id < nextCourseId)
      && (forall i :: 0 <= i < |modules| ==> modules[i].id < nextModuleId && modules[i].courseId in courses)
      && (forall i, j :: 0 <= i < j < |modules| ==> modules[i].id != modules[j].id)
      && (forall i :: 0 <= i < |lessons| ==> lessons[i].id < nextLessonId)
      && (forall i, j :: 0 <= i < j < |lessons| ==> lessons[i].id != lessons[j].id)
    }

    constructor ()
      ensures Valid()
      ensures courses == map[] && modules == [] && lessons == []
    {
      courses, modules, lessons := map[], [], [];
      nextCourseId, nextModuleId, nextLessonId := 1, 1, 1;
    }

    function ModuleIds(): (r: seq<nat>)
      reads this
      ensures |r| == |modules|
      ensures forall i :: 0 <= i < |modules| ==> r[i] == modules[i].id
    {
      seq(|modules|, i reads this requires 0 <= i < |modules| => modules[i].id)
    }

    function LessonIds(): (r: seq<nat>)
      reads this
      ensures |r| == |lessons|
      ensures forall i :: 0 <= i < |lessons| ==> r[i] == lessons[i].id
    {
      seq(|lessons|, i reads this requires 0 <= i < |lessons| => lessons[i].id)
    }

    /** `serializer.save(author=...)` for a course that passed validation. */
    method AddCourse(author: UserId, title: string, description: string, category: nat, level: Level)
      returns (c: Course)
      requires Valid()
      modifies this
      ensures Valid()
      ensures c == Course(old(nextCourseId), author, title, description, category, level, [])
      ensures c.id !in old(courses) && courses == old(courses)[c.id := c]
      ensures modules == old(modules) && lessons == old(lessons)
      ensures nextCourseId == old(nextCourseId) + 1
      ensures nextModuleId == old(nextModuleId) && nextLessonId == old(nextLessonId)
    {
      c := Course(nextCourseId, author, title, description, category, level, []);
      courses := courses[c.id := c];
      nextCourseId := nextCourseId + 1;
    }

    /** `Module.save`: a module being added with order 0 is placed after the other
        modules of its course; an existing module is written back as given. */
    method SaveModule(m: Module, adding: bool) returns (saved: Module)
      requires Valid()
      requires m.courseId in courses
      requires !adding ==> m.id in ModuleIds()
      modifies this
      ensures Valid()
      ensures saved.order == AssignedOrder(adding, m.order, SiblingOrders(ModuleSlots(old(modules)), m.courseId))
      ensures adding ==>
        saved == m.(id := old(nextModuleId), order := saved.order) && modules == old(modules) + [saved]
      ensures !adding ==> saved == m
      ensures !adding ==>
        exists i :: 0 <= i < |old(modules)| && old(modules)[i].id == m.id && modules == old(modules)[i := m]
      ensures courses == old(courses) && lessons == old(lessons)
      ensures nextModuleId == old(nextModuleId) + (if adding then 1 else 0)
      ensures nextCourseId == old(nextCourseId) && nextLessonId == old(nextLessonId)
    {
      if adding {
        var order := m.order;
        if order == 0 {
          var last := HighestOrder(SiblingOrders(ModuleSlots(modules), m.courseId));
          order := if last.Some? then last.value + 1 else 1;
        }
        saved := m.(id := nextModuleId, order := order);
        modules := modules + [saved];
        nextModuleId := nextModuleId + 1;
      } else {
        var i := IndexOf(ModuleIds(), m.id);
        saved := m;
        modules := modules[i := m];
      }
    }

    /** `Lesson.save`: the same rule, with the lesson's module as the parent. */
    method SaveLesson(l: Lesson, adding: bool) returns (saved: Lesson)
      requires Valid()
      requires !adding ==> l.id in LessonIds()
      modifies this
      ensures Valid()
      ensures saved.order == AssignedOrder(adding, l.order, SiblingOrders(LessonSlots(old(lessons)), l.moduleId))
      ensures adding ==>
        saved == l.(id := old(nextLessonId), order := saved.order) && lessons == old(lessons) + [saved]
      ensures !adding ==> saved == l
      ensures !adding ==>
        exists i :: 0 <= i < |old(lessons)| && old(lessons)[i].id == l.id && lessons == old(lessons)[i := l]
      ensures courses == old(courses) && modules == old(modules)
      ensures nextLessonId == old(nextLessonId) + (if adding then 1 else 0)
      ensures nextCourseId == old(nextCourseId) && nextModuleId == old(nextModuleId)
    {
      if adding {
        var order := l.order;
        if order == 0 {
          var last := HighestOrder(SiblingOrders(LessonSlots(lessons), l.moduleId));
          order := if last.Some? then last.value + 1 else 1;
        }
        saved := l.(id := nextLessonId, order := order);
        lessons := lessons + [saved];
        nextLessonId := nextLessonId + 1;
      } else {
        var i := IndexOf(LessonIds(), l.id);
        saved := l;
        lessons := lessons[i := l];
      }
    }

    /** `lesson.module.course`: the course of a stored module. */
    method CourseOfModule(moduleId: nat) returns (c: Course)
      requires Valid()
      requires moduleId in ModuleIds()
      ensures exists i ::
        0 <= i < |modules| && modules[i].id == moduleId && modules[i].courseId in courses
        && c == courses[modules[i].courseId]
    {
      var i := IndexOf(ModuleIds(), moduleId);
      c := courses[modules[i].courseId];
    }
  }
}
