/**
 * The course catalogue page: the search/category/level filter, the
 * "enrolled" and "featured" selections, the bookmark toggle and the lesson
 * count on each card.
 */
module Courses {
  import opened Data
  import Seqs
  import Text

  const AllCategories := "All"
  const AllLevels := "All Levels"

  const CategoryOptions: seq<string> := [
    AllCategories, "Agriculture", "Wellness", "Environment", "Community", "Technology", "Business", "Sustainability"]

  /** The level menu's values are capitalised; the levels the courses hold are lowercase. */
  const LevelOptions: seq<string> := [AllLevels, "Beginner", "Intermediate", "Advanced"]

  datatype CourseFilter = CourseFilter(query: string, category: string, level: string)

  const DefaultFilter := CourseFilter("", AllCategories, AllLevels)

  predicate MatchesSearch(c: Course, query: string) {
    var q := Text.Lower(query);
    Text.Contains(Text.Lower(c.title), q) || Text.Contains(Text.Lower(c.instructor.fullName), q) ||
    Text.Contains(Text.Lower(c.description), q)
  }

  predicate MatchesCategory(c: Course, category: string) {
    category == AllCategories || c.category == category
  }

  // ---------------------------------------------------------------- the level test as written

  /** `selectedLevel === 'All Levels' || course.level === selectedLevel`, an exact comparison. */
  predicate MatchesLevelAsWritten(c: Course, selected: string) {
    selected == AllLevels || LevelName(c.level) == selected
  }

  function FilteredCoursesAsWritten(catalog: seq<Course>, f: CourseFilter): seq<Course> {
    Seqs.Filter(catalog, c => MatchesSearch(c, f.query) && MatchesCategory(c, f.category) && MatchesLevelAsWritten(c, f.level))
  }

  /** No course level equals a capitalised menu value. */
  lemma LevelNameNotOption(l: Level, option: string)
    requires option in LevelOptions[1..]
    ensures LevelName(l) != option
  {
    assert LevelName(l)[0] != option[0];
  }

  /** As written, choosing any specific level in the menu lists no course at all. */
  lemma SpecificLevelHidesAll(catalog: seq<Course>, f: CourseFilter)
    requires f.level in LevelOptions[1..]
    ensures FilteredCoursesAsWritten(catalog, f) == []
  {
    var r := FilteredCoursesAsWritten(catalog, f);
    if r != [] {
      assert r[0] in r;
      LevelNameNotOption(r[0].level, f.level);
      assert false;
    }
  }

  // ---------------------------------------------------------------- the level test as intended

  /** The menu value for each level. */
  function LevelOption(l: Level): (option: string)
    ensures option in LevelOptions[1..]
  {
    match l
    case Beginner => "Beginner"
    case Intermediate => "Intermediate"
    case Advanced => "Advanced"
  }

  /** The menu value compared with the menu value of the course's level. */
  predicate MatchesLevel(c: Course, selected: string) {
    selected == AllLevels || LevelOption(c.level) == selected
  }

  predicate Keep(f: CourseFilter, c: Course) {
    MatchesSearch(c, f.query) && MatchesCategory(c, f.category) && MatchesLevel(c, f.level)
  }

  function FilteredCourses(catalog: seq<Course>, f: CourseFilter): seq<Course> {
    Seqs.Filter(catalog, c => Keep(f, c))
  }

  /**
   * A course is listed exactly when it is in the catalogue, matches the
   * search, is in the chosen category (or "All") and, when a level is
   * chosen from the menu, has that level; the list keeps the catalogue's
   * order.
   */
  lemma FilteredCoursesFacts(catalog: seq<Course>, f: CourseFilter)
    ensures forall c :: c in FilteredCourses(catalog, f) <==>
      && c in catalog
      && MatchesSearch(c, f.query)
      && (f.category == AllCategories || c.category == f.category)
      && (f.level == AllLevels || LevelOption(c.level) == f.level)
    ensures Seqs.IsSubsequence(FilteredCourses(catalog, f), catalog)
  {
    Seqs.FilterIsSubsequence(catalog, c => Keep(f, c));
  }

  /** With the intended comparison, choosing a level's menu value keeps exactly the courses of that level. */
  lemma LevelOptionSelects(catalog: seq<Course>, l: Level)
    ensures forall c :: c in FilteredCourses(catalog, CourseFilter("", AllCategories, LevelOption(l))) <==>
      c in catalog && c.level == l
  {
    var f := CourseFilter("", AllCategories, LevelOption(l));
    forall c: Course ensures MatchesSearch(c, "") {
      Text.ContainsEmpty(Text.Lower(c.title));
    }
    forall c: Course ensures MatchesLevel(c, f.level) <==> c.level == l {
      if LevelOption(c.level) == LevelOption(l) {
        assert LevelOption(c.level)[0] == LevelOption(l)[0];
      }
    }
  }

  /** The page's starting state lists the whole catalogue, in order. */
  lemma DefaultFilterShowsAll(catalog: seq<Course>)
    ensures FilteredCourses(catalog, DefaultFilter) == catalog
  {
    forall i | 0 <= i < |catalog| ensures Keep(DefaultFilter, catalog[i]) {
      Text.ContainsEmpty(Text.Lower(catalog[i].title));
    }
    Seqs.FilterKeepsAll(catalog, c => Keep(DefaultFilter, c));
  }

  // ---------------------------------------------------------------- selections and toggles

  /** The "enrolled" tab: the first three catalogue courses. */
  function Enrolled(catalog: seq<Course>): (r: seq<Course>)
    ensures |r| <= 3 && |r| <= |catalog| && r == catalog[..|r|]
    ensures |catalog| >= 3 ==> |r| == 3
    ensures |catalog| < 3 ==> r == catalog
  {
    Seqs.Prefix(catalog, 3)
  }

  predicate HighlyRated(c: Course) { c.rating >= 4.5 }

  /** The featured strip: the first four courses rated 4.5 or more, in catalogue order. */
  function FeaturedCourses(catalog: seq<Course>): seq<Course> {
    Seqs.Prefix(Seqs.Filter(catalog, HighlyRated), 4)
  }

  /**
   * The featured courses are at most four, all rated 4.5 or more, and are
   * the first of the catalogue's courses so rated, in catalogue order; when
   * fewer than four are shown, every course rated 4.5 or more is among them.
   */
  lemma FeaturedCoursesFacts(catalog: seq<Course>)
    ensures var all := Seqs.Filter(catalog, HighlyRated);
      var r := FeaturedCourses(catalog);
      && |r| <= 4 && |r| <= |all| && r == all[..|r|]
      && Seqs.IsSubsequence(all, catalog)
      && (forall i :: 0 <= i < |r| ==> r[i] in catalog && r[i].rating >= 4.5)
      && (|r| < 4 ==> forall c :: c in catalog && c.rating >= 4.5 ==> c in r)
  {
    var all := Seqs.Filter(catalog, HighlyRated);
    var r := FeaturedCourses(catalog);
    Seqs.FilterIsSubsequence(catalog, HighlyRated);
    forall i | 0 <= i < |r| ensures r[i] in catalog && r[i].rating >= 4.5 {
      assert r[i] in all;
    }
  }

  /**
   * The bookmark icon removes the course id when bookmarked and appends it
   * otherwise; clicking twice gives back the same bookmarks.
   */
  lemma BookmarkToggle(bookmarks: seq<string>, courseId: string)
    ensures courseId in Seqs.Toggle(bookmarks, courseId) <==> courseId !in bookmarks
    ensures forall other :: other != courseId ==> (other in Seqs.Toggle(bookmarks, courseId) <==> other in bookmarks)
    ensures forall x :: x in Seqs.Toggle(Seqs.Toggle(bookmarks, courseId), courseId) <==> x in bookmarks
    ensures courseId !in bookmarks ==> Seqs.Toggle(Seqs.Toggle(bookmarks, courseId), courseId) == bookmarks
  {
    Seqs.ToggleTwice(bookmarks, courseId);
  }

  /** The lesson count printed on a card: three per module. */
  function LessonCount(c: Course): int {
    c.modules * 3
  }
}
