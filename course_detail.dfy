/**
 * The course page: the course looked up by id with its fallback, the
 * curriculum's lesson counts and progress percentage, the accordion that
 * opens one module at a time, and the lesson icons.
 */
module CourseDetail {
  import opened Wrappers
  import opened Data
  import Seqs

  /**
   * The course for the route's id: the first course with that id, else the
   * first course; `None` stands for `undefined`, which only an empty
   * catalogue gives.
   */
  function CourseFor(catalog: seq<Course>, courseId: Option<string>): (r: Option<Course>)
    ensures r.None? <==> catalog == []
    ensures courseId.Some? && (exists i :: 0 <= i < |catalog| && catalog[i].id == courseId.value) ==>
      r.Some? && r.value.id == courseId.value && r.value in catalog
    ensures (courseId.None? || forall i :: 0 <= i < |catalog| ==> catalog[i].id != courseId.value) && catalog != [] ==>
      r == Some(catalog[0])
  {
    var i := if courseId.Some? then Seqs.IndexOf(catalog, CourseId, courseId.value) else -1;
    if i != -1 then Some(catalog[i]) else if catalog == [] then None else Some(catalog[0])
  }

  datatype Lesson = Lesson(id: string, title: string, duration: string, kind: string, completed: bool)

  datatype CourseModule = CourseModule(id: string, title: string, lessons: seq<Lesson>)

  predicate IsCompleted(l: Lesson) { l.completed }

  /** `module.lessons.filter(l => l.completed).length`. */
  function CompletedIn(lessons: seq<Lesson>): nat {
    |Seqs.Filter(lessons, IsCompleted)|
  }

  /** The "completed/total" of a module: never more completed than lessons; none and all exactly when so. */
  lemma {:induction false} CompletedInFacts(lessons: seq<Lesson>)
    ensures CompletedIn(lessons) <= |lessons|
    ensures CompletedIn(lessons) == 0 <==> forall i :: 0 <= i < |lessons| ==> !lessons[i].completed
    ensures CompletedIn(lessons) == |lessons| <==> forall i :: 0 <= i < |lessons| ==> lessons[i].completed
  {
    if lessons != [] {
      CompletedInFacts(lessons[1..]);
      assert forall i :: 1 <= i < |lessons| ==> lessons[i] == lessons[1..][i - 1];
    }
  }

  /** `modules.reduce((acc, m) => acc + m.lessons.length, 0)`. */
  function TotalLessons(modules: seq<CourseModule>): nat {
    if modules == [] then 0 else TotalLessons(modules[..|modules| - 1]) + |modules[|modules| - 1].lessons|
  }

  function CompletedLessons(modules: seq<CourseModule>): nat {
    if modules == [] then 0 else CompletedLessons(modules[..|modules| - 1]) + CompletedIn(modules[|modules| - 1].lessons)
  }

  ghost predicate ModuleAnyCompleted(m: CourseModule) {
    exists i :: 0 <= i < |m.lessons| && m.lessons[i].completed
  }

  ghost predicate ModuleAllCompleted(m: CourseModule) {
    forall i :: 0 <= i < |m.lessons| ==> m.lessons[i].completed
  }

  /** Some lesson of some module is completed. */
  ghost predicate AnyCompleted(modules: seq<CourseModule>) {
    exists m :: 0 <= m < |modules| && ModuleAnyCompleted(modules[m])
  }

  /** Every lesson of every module is completed. */
  ghost predicate AllCompleted(modules: seq<CourseModule>) {
    forall m :: 0 <= m < |modules| ==> ModuleAllCompleted(modules[m])
  }

  lemma ModuleFacts(m: CourseModule)
    ensures CompletedIn(m.lessons) <= |m.lessons|
    ensures CompletedIn(m.lessons) == 0 <==> !ModuleAnyCompleted(m)
    ensures CompletedIn(m.lessons) == |m.lessons| <==> ModuleAllCompleted(m)
  {
    CompletedInFacts(m.lessons);
  }

  lemma {:induction false} CountsBound(modules: seq<CourseModule>)
    ensures CompletedLessons(modules) <= TotalLessons(modules)
  {
    if modules != [] {
      CountsBound(modules[..|modules| - 1]);
      ModuleFacts(modules[|modules| - 1]);
    }
  }

  lemma {:induction false} CountsNone(modules: seq<CourseModule>)
    ensures CompletedLessons(modules) == 0 <==> !AnyCompleted(modules)
  {
    if modules != [] {
      var init := modules[..|modules| - 1];
      CountsNone(init);
      ModuleFacts(modules[|modules| - 1]);
      assert forall m :: 0 <= m < |init| ==> modules[m] == init[m];
      if AnyCompleted(modules) {
        var m :| 0 <= m < |modules| && ModuleAnyCompleted(modules[m]);
        if m < |init| {
          assert ModuleAnyCompleted(init[m]);
        }
      }
    }
  }

  lemma {:induction false} CountsAll(modules: seq<CourseModule>)
    ensures CompletedLessons(modules) == TotalLessons(modules) <==> AllCompleted(modules)
  {
    if modules != [] {
      var init := modules[..|modules| - 1];
      CountsAll(init);
      CountsBound(init);
      ModuleFacts(modules[|modules| - 1]);
      assert forall m :: 0 <= m < |init| ==> modules[m] == init[m];
      if !AllCompleted(init) {
        var m :| 0 <= m < |init| && !ModuleAllCompleted(init[m]);
        assert !ModuleAllCompleted(modules[m]);
      }
    }
  }

  /** The course-wide counts: no more completed than lessons, none and all exactly when so. */
  lemma CountsFacts(modules: seq<CourseModule>)
    ensures CompletedLessons(modules) <= TotalLessons(modules)
    ensures CompletedLessons(modules) == 0 <==> !AnyCompleted(modules)
    ensures CompletedLessons(modules) == TotalLessons(modules) <==> AllCompleted(modules)
  {
    CountsBound(modules);
    CountsNone(modules);
    CountsAll(modules);
  }

  /**
   * `calculateProgress`: completed over total, times 100. With no lessons
   * the division is 0/0, which gives NaN; `None` stands for it.
   */
  function Progress(modules: seq<CourseModule>): Option<real> {
    var total := TotalLessons(modules);
    if total == 0 then None else Some(CompletedLessons(modules) as real / total as real * 100.0)
  }

  /**
   * With at least one lesson the progress lies in [0, 100]; it is 0 exactly
   * when no lesson is complete and 100 exactly when all are.
   */
  lemma ProgressFacts(modules: seq<CourseModule>)
    ensures Progress(modules).None? <==> TotalLessons(modules) == 0
    ensures Progress(modules).Some? ==>
      && 0.0 <= Progress(modules).value <= 100.0
      && (Progress(modules).value == 0.0 <==> !AnyCompleted(modules))
      && (Progress(modules).value == 100.0 <==> AllCompleted(modules))
  {
    CountsFacts(modules);
    var total := TotalLessons(modules);
    if total != 0 {
      var done := CompletedLessons(modules);
      RatioFacts(done, total);
    }
  }

  lemma RatioFacts(done: nat, total: nat)
    requires 0 < total && done <= total
    ensures 0.0 <= done as real / total as real * 100.0 <= 100.0
    ensures done as real / total as real * 100.0 == 0.0 <==> done == 0
    ensures done as real / total as real * 100.0 == 100.0 <==> done == total
  {
    var d := done as real;
    var t := total as real;
    var q := d / t;
    assert q * t == d;
    assert 0.0 <= q by {
      assert d >= 0.0 && t > 0.0;
    }
    assert q <= 1.0 by {
      assert (1.0 - q) * t == t - d;
      assert t - d >= 0.0;
    }
    assert q == 1.0 <==> done == total by {
      assert (1.0 - q) * t == t - d;
    }
  }

  const Module1 := CourseModule("module1", "Introduction to Sustainable Agriculture", [
    Lesson("lesson1", "What is Sustainable Agriculture?", "15 min", "video", true),
    Lesson("lesson2", "History and Evolution", "20 min", "article", true),
    Lesson("lesson3", "Key Principles", "25 min", "video", false),
    Lesson("lesson4", "Quiz: Introduction", "10 min", "quiz", false)])

  const Module2 := CourseModule("module2", "Soil Health and Management", [
    Lesson("lesson5", "Understanding Soil Composition", "30 min", "video", false),
    Lesson("lesson6", "Soil Testing Methods", "25 min", "article", false),
    Lesson("lesson7", "Improving Soil Fertility", "35 min", "video", false),
    Lesson("lesson8", "Quiz: Soil Management", "15 min", "quiz", false)])

  const Module3 := CourseModule("module3", "Water Conservation Techniques", [
    Lesson("lesson9", "Efficient Irrigation Systems", "40 min", "video", false),
    Lesson("lesson10", "Rainwater Harvesting", "30 min", "article", false),
    Lesson("lesson11", "Drought Management", "25 min", "video", false)])

  /** The curriculum the page shows for every course. */
  const CourseModules: seq<CourseModule> := [Module1, Module2, Module3]

  lemma Module1Completed()
    ensures CompletedIn(Module1.lessons) == 2
  {
    var ls := Module1.lessons;
    assert Seqs.Filter(ls[3..], IsCompleted) == [] by {
      CompletedInFacts(ls[3..]);
    }
    assert Seqs.Filter(ls[2..], IsCompleted) == [];
    assert Seqs.Filter(ls[1..], IsCompleted) == [ls[1]];
  }

  lemma Module2Completed()
    ensures CompletedIn(Module2.lessons) == 0
  {
    ModuleFacts(Module2);
  }

  lemma Module3Completed()
    ensures CompletedIn(Module3.lessons) == 0
  {
    ModuleFacts(Module3);
  }

  lemma {:induction false} TotalOfThree(a: CourseModule, b: CourseModule, c: CourseModule)
    ensures TotalLessons([a, b, c]) == |a.lessons| + |b.lessons| + |c.lessons|
  {
    assert [a, b, c][..2] == [a, b] && [a, b][..1] == [a] && [a][..0] == [];
    assert TotalLessons([a]) == |a.lessons|;
    assert TotalLessons([a, b]) == TotalLessons([a]) + |b.lessons|;
  }

  lemma {:induction false} CompletedOfThree(a: CourseModule, b: CourseModule, c: CourseModule)
    ensures CompletedLessons([a, b, c]) == CompletedIn(a.lessons) + CompletedIn(b.lessons) + CompletedIn(c.lessons)
  {
    assert [a, b, c][..2] == [a, b] && [a, b][..1] == [a] && [a][..0] == [];
    assert CompletedLessons([a]) == CompletedIn(a.lessons);
    assert CompletedLessons([a, b]) == CompletedLessons([a]) + CompletedIn(b.lessons);
  }

  lemma CurriculumTotal()
    ensures TotalLessons(CourseModules) == 11
  {
    TotalOfThree(Module1, Module2, Module3);
  }

  lemma CurriculumCompleted()
    ensures CompletedLessons(CourseModules) == 2
  {
    CompletedOfThree(Module1, Module2, Module3);
    Module1Completed();
    Module2Completed();
    Module3Completed();
  }

  /** The fixed curriculum has 11 lessons, 2 of them completed: 200/11 percent. */
  lemma CourseModulesCounts()
    ensures TotalLessons(CourseModules) == 11
    ensures CompletedLessons(CourseModules) == 2
    ensures Progress(CourseModules) == Some(200.0 / 11.0)
  {
    CurriculumTotal();
    CurriculumCompleted();
    assert 2.0 / 11.0 * 100.0 == 200.0 / 11.0;
  }

  /** The accordion state: one module id, or `false` for all collapsed. */
  datatype Expanded = Collapsed | Open(moduleId: string)

  /** `handleModuleChange(panel)(_, isExpanded)`: opening a panel replaces whatever was open; closing collapses all. */
  function OnModuleChange(panel: string, isExpanded: bool): Expanded {
    if isExpanded then Open(panel) else Collapsed
  }

  predicate IsExpanded(state: Expanded, moduleId: string) {
    state == Open(moduleId)
  }

  /**
   * At most one module is expanded in any state; after opening a panel it is
   * the only one expanded, and after closing any panel none is.
   */
  lemma AccordionFacts(state: Expanded, panel: string, isExpanded: bool)
    ensures forall a, b :: IsExpanded(state, a) && IsExpanded(state, b) ==> a == b
    ensures forall id :: IsExpanded(OnModuleChange(panel, isExpanded), id) <==> isExpanded && id == panel
  {
  }

  datatype Icon = VideoIcon | ArticleIcon | QuizIcon | PlayIcon

  /** `getLessonIcon`: its own icon for each of the three known types, the play icon for any other. */
  function LessonIcon(kind: string): (icon: Icon)
    ensures icon == VideoIcon <==> kind == "video"
    ensures icon == ArticleIcon <==> kind == "article"
    ensures icon == QuizIcon <==> kind == "quiz"
    ensures icon == PlayIcon <==> kind !in {"video", "article", "quiz"}
  {
    if kind == "video" then VideoIcon
    else if kind == "article" then ArticleIcon
    else if kind == "quiz" then QuizIcon
    else PlayIcon
  }
}
