/** Reviews: the field rules a course review must satisfy before it is saved,
    and its display string "<title> (f<rating>/5)". */
module Reviews {
  import opened Common

  /** The inclusive bounds of the rating validators. */
  const MinRating: int := 1
  const MaxRating: int := 5

  /** `max_length` of the title and content columns. */
  const TitleMaxLength: nat := 100
  const ContentMaxLength: nat := 500

  datatype Review = Review(user: UserId, course: nat, title: string, content: string, rating: int)

  predicate ValidRating(rating: int)
  {
    MinRating <= rating <= MaxRating
  }

  /** A required text field as the serializer checks it: after stripping the
      surrounding whitespace it is not blank, fits its column and holds no null
      character. */
  predicate ValidText(s: string, maxLength: nat)
  {
    var t := Trim(s);
    t != [] && |t| <= maxLength && '\0' !in t
  }

  /** The fields a review request carries, and the key each error is reported under. */
  datatype Field = CourseId | Title | Content | Rating

  function FieldName(f: Field): string
  {
    match f
    case CourseId => "course_id"
    case Title => "title"
    case Content => "content"
    case Rating => "rating"
  }

  /** The fields that fail validation; every failing field is reported.
      `courses` holds the ids of the stored courses, which `course_id` must name. */
  function FieldErrors(course: nat, courses: set<nat>, title: string, content: string, rating: int)
    : (errors: set<Field>)
    ensures CourseId in errors <==> course !in courses
    ensures Title in errors <==> !ValidText(title, TitleMaxLength)
    ensures Content in errors <==> !ValidText(content, ContentMaxLength)
    ensures Rating in errors <==> !ValidRating(rating)
  {
    (if course in courses then {} else {CourseId})
    + (if ValidText(title, TitleMaxLength) then {} else {Title})
    + (if ValidText(content, ContentMaxLength) then {} else {Content})
    + (if ValidRating(rating) then {} else {Rating})
  }

  /** A review as the serializer and model validators accept it: the text fields are
      stored stripped; on an error nothing is saved. The user is the requester,
      stamped by the view. */
  function NewReview(user: UserId, course: nat, courses: set<nat>, title: string, content: string, rating: int)
    : (r: Result<Review, set<Field>>)
    ensures r.Ok? <==>
      && course in courses && ValidRating(rating)
      && ValidText(title, TitleMaxLength) && ValidText(content, ContentMaxLength)
    ensures r.Ok? ==> r.value == Review(user, course, Trim(title), Trim(content), rating)
    ensures r.Ok? ==> 1 <= r.value.rating <= 5 && r.value.title != [] && |r.value.content| <= ContentMaxLength
    ensures r.Err? ==> r.error == FieldErrors(course, courses, title, content, rating) && r.error != {}
  {
    var errors := FieldErrors(course, courses, title, content, rating);
    if errors == {} then Ok(Review(user, course, Trim(title), Trim(content), rating))
    else Err(errors)
  }

  /** Both bounds are inclusive: exactly the five ratings 1..5 pass. */
  lemma RatingBoundsInclusive(rating: int)
    ensures ValidRating(rating) <==> rating in {1, 2, 3, 4, 5}
  {
  }

  /** A rating of 10 is rejected with an error on "rating". */
  lemma RatingTenRejected(user: UserId, course: nat, courses: set<nat>)
    ensures var r := NewReview(user, course, courses, "Too much", "Nope", 10);
      r.Err? && Rating in r.error && FieldName(Rating) == "rating"
  {
  }

  /** A rating of 6 for a stored course is rejected with only the rating in error, so
      no review is saved. */
  lemma RatingSixRejected(user: UserId, course: nat, courses: set<nat>)
    requires course in courses
    ensures NewReview(user, course, courses, "Great course!", "Great course!", 6) == Err({Rating})
  {
    var errors := FieldErrors(course, courses, "Great course!", "Great course!", 6);
    assert Trim("Great course!") == "Great course!" by {
      assert LeadingSpaces("Great course!") == 0;
      assert TrailingSpaces("Great course!") == 0;
    }
    assert Rating in errors && Title !in errors && Content !in errors && CourseId !in errors;
    assert errors == {Rating};
  }

  /** A rating of 5 for a stored course is accepted and keeps the course, content and
      rating given. */
  lemma RatingFiveAccepted(user: UserId, course: nat, courses: set<nat>)
    requires course in courses
    ensures var r := NewReview(user, course, courses, "Great course!", "Great course!", 5);
      r.Ok? && r.value.course == course && r.value.content == "Great course!" && r.value.rating == 5
  {
    assert Trim("Great course!") == "Great course!" by {
      assert LeadingSpaces("Great course!") == 0;
      assert TrailingSpaces("Great course!") == 0;
    }
  }

  /** A title or content made only of whitespace is blank and rejected. */
  lemma WhitespaceOnlyRejected(user: UserId, course: nat, courses: set<nat>, rating: int)
    ensures var r := NewReview(user, course, courses, "   ", "\n\t", rating);
      r.Err? && Title in r.error && Content in r.error
  {
    assert Trim("   ") == [] && Trim("\n\t") == [];
  }

  /** Surrounding whitespace is stripped before the length check and is not stored. */
  lemma StrippedBeforeSaving(user: UserId, course: nat)
    ensures NewReview(user, course, {course}, "  Nice  ", "ok\n", 4) == Ok(Review(user, course, "Nice", "ok", 4))
  {
    assert LeadingSpaces("  Nice  ") == 2 && TrailingSpaces("  Nice  ") == 2;
    assert Trim("  Nice  ") == "Nice";
    assert LeadingSpaces("ok\n") == 0 && TrailingSpaces("ok\n") == 1;
    assert Trim("ok\n") == "ok";
  }

  /** A review naming a course that is not stored is rejected on "course_id". */
  lemma UnknownCourseRejected(user: UserId, course: nat, courses: set<nat>, title: string, content: string, rating: int)
    requires course !in courses
    ensures var r := NewReview(user, course, courses, title, content, rating);
      r.Err? && CourseId in r.error
  {
  }

  // ---- The display string and its inverse ----

  /** `Review.__str__`: "<title> (f<rating>/5)", the letter f included. */
  function ReviewString(title: string, rating: int): (s: string)
    ensures |s| == |title| + 6 + |IntString(rating)|
    ensures s[..|title|] == title && s[|s| - 3..] == "/5)"
  {
    title + " (f" + IntString(rating) + "/5)"
  }

  /** The position of the last '(' in `s`. */
  function LastOpen(s: string): (p: Option<nat>)
    ensures p.None? ==> forall j :: 0 <= j < |s| ==> s[j] != '('
    ensures p.Some? ==> p.value < |s| && s[p.value] == '('
    ensures p.Some? ==> forall j :: p.value < j < |s| ==> s[j] != '('
    decreases |s|
  {
    if s == [] then None
    else if s[|s| - 1] == '(' then Some(|s| - 1)
    else LastOpen(s[..|s| - 1])
  }

  /** Reads a display string back into its title and rating: the rating sits between
      the last " (f" and the closing "/5)", and the title is everything before it. */
  function ParseReviewString(s: string): Option<(string, int)>
  {
    var p := LastOpen(s);
    if p.None? || p.value < 1 || p.value + 5 > |s| then None
    else if s[p.value - 1] != ' ' || s[p.value + 1] != 'f' || s[|s| - 3..] != "/5)" then None
    else Some((s[..p.value - 1], ParseInt(s[p.value + 2..|s| - 3])))
  }

  /** The rendered rating contains no parenthesis. */
  lemma IntStringHasNoParen(n: int)
    ensures forall j :: 0 <= j < |IntString(n)| ==> IntString(n)[j] != '('
  {
    if n < 0 {
      var d := NatString(-n);
      assert forall j :: 1 <= j < |IntString(n)| ==> IntString(n)[j] == d[j - 1];
    }
  }

  /** The display string determines the title and the rating: reading it back gives
      both exactly, whatever the title contains. */
  lemma ReviewStringRoundTrip(title: string, rating: int)
    ensures ParseReviewString(ReviewString(title, rating)) == Some((title, rating))
  {
    var num := IntString(rating);
    var s := ReviewString(title, rating);
    var p := |title| + 1;
    assert s[p] == '(';
    IntStringHasNoParen(rating);
    assert forall j :: p < j < |s| ==> s[j] != '(' by {
      forall j | p < j < |s| ensures s[j] != '(' {
        if p + 2 <= j < p + 2 + |num| {
          assert s[j] == num[j - p - 2];
        }
      }
    }
    var q := LastOpen(s);
    assert q == Some(p);
    assert s[..p - 1] == title;
    assert s[p + 2..|s| - 3] == num;
    assert s[|s| - 3..] == "/5)";
    IntStringRoundTrip(rating);
  }

  /** Two reviews display alike only when their titles and ratings agree. */
  lemma ReviewStringInjective(t1: string, r1: int, t2: string, r2: int)
    requires ReviewString(t1, r1) == ReviewString(t2, r2)
    ensures t1 == t2 && r1 == r2
  {
    ReviewStringRoundTrip(t1, r1);
    ReviewStringRoundTrip(t2, r2);
  }
}
