/** The quality reviewer (app/agents/quality_agent.py): it lays a module's lessons out as
    text, asks its collaborator for a review, and files the review's sections on a copy of
    the draft. It is a standalone component: the course pipeline never calls it. */
module QualityAgent {
  import opened Wrappers
  import opened Strings
  import opened Course

  const RevisedHeader: string := "REVISED CONTENT:"
  const ModuleReviewHeader: string := "MODULE REVIEW:"
  const ImprovementsHeader: string := "IMPROVEMENTS:"
  const LessonReviewsHeader: string := "LESSON REVIEWS:"

  /** The twelve spaces of source indentation the lesson text template carries on each line. */
  const Indent: string := "            "

  /** The `quality_review` entry: the module review, the improvements and the revised
      content notes. */
  datatype QualityReview = QualityReview(
    moduleReview: string,
    improvements: string,
    revisedContentNotes: string)

  /** A module dictionary: its title, its lessons and, once reviewed, its `quality_review`. */
  datatype ModuleDraft = ModuleDraft(title: string, lessons: seq<Lesson>, qualityReview: Option<QualityReview>)

  /** The variables the review prompt is filled with. */
  datatype ReviewPrompt = ReviewPrompt(
    courseTitle: string,
    courseDescription: string,
    moduleTitle: string,
    lessonsContent: string,
    audience: string,
    duration: string)

  // ---------------------------------------------------------------------------
  // The review parser.

  /** `result.split(start)[1].split(stop)[0].strip()`, asked for only when `start` occurs. */
  function Segment(result: string, start: string, stop: string): string
    requires start != "" && stop != ""
  {
    var parts := Split(result, start);
    if |parts| >= 2 then Strip(Split(parts[1], stop)[0]) else ""
  }

  /** `_parse_review_result`: without "REVISED CONTENT:" the module is returned as it came;
      with it, a `quality_review` is filed carrying the module review (up to
      "IMPROVEMENTS:"), the improvements (up to "LESSON REVIEWS:") and the revised content,
      each "" when its header is missing. */
  function ParseReview(result: string, original: ModuleDraft): ModuleDraft {
    if Contains(result, RevisedHeader) then
      var parts := Split(result, RevisedHeader);
      if |parts| >= 2 then
        var revised := Strip(parts[1]);
        var moduleReview :=
          if Contains(result, ModuleReviewHeader) then Segment(result, ModuleReviewHeader, ImprovementsHeader)
          else "";
        var improvements :=
          if Contains(result, ImprovementsHeader) then Segment(result, ImprovementsHeader, LessonReviewsHeader)
          else "";
        original.(qualityReview := Some(QualityReview(moduleReview, improvements, revised)))
      else
        original
    else
      original
  }

  /** Where `start` occurs, the segment is the stripped text after its first occurrence,
      cut at the next `start` and then at the first `stop`. */
  lemma SegmentSpec(result: string, start: string, stop: string)
    requires start != "" && stop != "" && Contains(result, start)
    ensures Segment(result, start, stop) == Strip(Before(Before(After(result, start), start), stop))
  {
    SplitFirst(result, start);
    SplitFirst(After(result, start), start);
    SplitFirst(Before(After(result, start), start), stop);
    var parts := Split(result, start);
    assert parts[1] == parts[1..][0];
  }

  /** What a review section holds: the stripped text after the first `start` up to the
      next `stop` (or `start`), or "" when `start` is missing. */
  function SectionOf(result: string, start: string, stop: string): string
    requires start != "" && stop != ""
  {
    if Contains(result, start) then Strip(Before(Before(After(result, start), start), stop)) else ""
  }

  /** Without "REVISED CONTENT:" the module comes back as it was, with no review filed. */
  lemma ReviewWithoutRevised(result: string, original: ModuleDraft)
    requires !Contains(result, RevisedHeader)
    ensures ParseReview(result, original) == original
  {
  }

  /** With "REVISED CONTENT:" the review is filed on the draft: the revised content notes
      are the stripped text between the first and the second "REVISED CONTENT:", and the
      other two sections are read by `SectionOf`. Title and lessons are kept. */
  lemma ReviewWithRevised(result: string, original: ModuleDraft)
    requires Contains(result, RevisedHeader)
    ensures ParseReview(result, original) == ModuleDraft(original.title, original.lessons, Some(QualityReview(
      SectionOf(result, ModuleReviewHeader, ImprovementsHeader),
      SectionOf(result, ImprovementsHeader, LessonReviewsHeader),
      Strip(Before(After(result, RevisedHeader), RevisedHeader)))))
  {
    SplitFirst(result, RevisedHeader);
    SplitFirst(After(result, RevisedHeader), RevisedHeader);
    var parts := Split(result, RevisedHeader);
    assert parts[1] == parts[1..][0];
    if Contains(result, ModuleReviewHeader) {
      SegmentSpec(result, ModuleReviewHeader, ImprovementsHeader);
    }
    if Contains(result, ImprovementsHeader) {
      SegmentSpec(result, ImprovementsHeader, LessonReviewsHeader);
    }
  }

  /** A section is stripped and holds neither its own header nor the header it stops at. */
  lemma SectionClean(result: string, start: string, stop: string)
    requires start != "" && stop != ""
    ensures var x := SectionOf(result, start, stop);
      Stripped(x) && !Contains(x, start) && !Contains(x, stop)
  {
    if Contains(result, start) {
      BeforeAfter(After(result, start), start);
      CutLacks(Before(After(result, start), start), stop, start);
    } else {
      StripSpec("");
      FirstCharAbsent("", start);
      FirstCharAbsent("", stop);
    }
  }

  // ---------------------------------------------------------------------------
  // The lesson text of the review prompt.

  /** What each lesson's block starts with: a newline, the indentation and "Lesson ". */
  const LessonLead: string := "\n" + Indent + "Lesson "

  /** The text one lesson adds to `lessons_content`: its number `i + 1`, then its title,
      content and bullet-listed resources (`LessonBody`). */
  function LessonBlock(i: nat, l: Lesson): string {
    LessonLead + DecimalString(i + 1) + ": " + LessonBody(l)
  }

  /** A block after its number: the title, then the content and the resources under their
      captions, each on lines indented as in the source template, and a closing "---". */
  function LessonBody(l: Lesson): string {
    l.title + "\n" + Indent +
    "\n" + Indent + "Content:\n" + Indent + l.content + "\n" + Indent +
    "\n" + Indent + "Resources:\n" + Indent + FormatList(l.resources) + "\n" + Indent +
    "\n" + Indent + "---\n" + Indent
  }

  /** The blocks `block` makes of the lessons, numbered by position, in declared order. */
  function Blocks(block: (nat, Lesson) -> string, lessons: seq<Lesson>): string
    decreases |lessons|
  {
    if |lessons| == 0 then ""
    else Blocks(block, lessons[..|lessons| - 1]) + block(|lessons| - 1, lessons[|lessons| - 1])
  }

  /** `lessons_content`: the lessons' blocks, numbered from 1, in declared order. */
  function LessonsText(lessons: seq<Lesson>): string {
    Blocks(LessonBlock, lessons)
  }

  /** The loop of `review_module` that accumulates `lessons_content` with `+=`. */
  method FormatLessons(lessons: seq<Lesson>) returns (text: string)
    ensures text == LessonsText(lessons)
  {
    text := "";
    var i := 0;
    while i < |lessons|
      invariant 0 <= i <= |lessons|
      invariant text == Blocks(LessonBlock, lessons[..i])
    {
      var block := LessonBlock(i, lessons[i]);
      assert lessons[..i + 1][..i] == lessons[..i];
      assert Blocks(LessonBlock, lessons[..i + 1]) == Blocks(LessonBlock, lessons[..i]) + block;
      text := text + block;
      i := i + 1;
    }
    assert lessons[..i] == lessons;
  }

  /** The blocks of the first `k` lessons are a prefix of the blocks of all of them. */
  lemma {:induction false} BlocksPrefix(block: (nat, Lesson) -> string, lessons: seq<Lesson>, k: nat)
    requires k <= |lessons|
    ensures |Blocks(block, lessons[..k])| <= |Blocks(block, lessons)|
    ensures Blocks(block, lessons)[..|Blocks(block, lessons[..k])|] == Blocks(block, lessons[..k])
    decreases |lessons|
  {
    if k < |lessons| {
      var init := lessons[..|lessons| - 1];
      BlocksPrefix(block, init, k);
      assert init[..k] == lessons[..k];
      var whole := Blocks(block, lessons);
      assert whole == Blocks(block, init) + block(|lessons| - 1, lessons[|lessons| - 1]);
      assert whole[..|Blocks(block, init)|] == Blocks(block, init);
    } else {
      assert lessons[..k] == lessons;
    }
  }

  /** Lesson `i`'s block comes right after the blocks of the lessons before it. */
  lemma BlockAt(block: (nat, Lesson) -> string, lessons: seq<Lesson>, i: nat)
    requires i < |lessons|
    ensures var at := |Blocks(block, lessons[..i])|;
      at + |block(i, lessons[i])| <= |Blocks(block, lessons)| &&
      Blocks(block, lessons)[at..at + |block(i, lessons[i])|] == block(i, lessons[i])
  {
    var pre := Blocks(block, lessons[..i]);
    var b := block(i, lessons[i]);
    assert lessons[..i + 1][..i] == lessons[..i];
    assert Blocks(block, lessons[..i + 1]) == pre + b;
    BlocksPrefix(block, lessons, i + 1);
    var whole := Blocks(block, lessons);
    assert whole[..|pre| + |b|] == pre + b;
    assert whole[|pre|..|pre| + |b|] == (pre + b)[|pre|..];
  }

  /** After the lead, the text up to the first ": " of a numbered block is the number. */
  lemma NumberReadsBack(n: nat, body: string)
    ensures var b := LessonLead + DecimalString(n) + ": " + body;
      |LessonLead| <= |b| && b[..|LessonLead|] == LessonLead &&
      DecimalValue(Before(b[|LessonLead|..], ": ")) == n
  {
    var digits := DecimalString(n);
    var b := LessonLead + digits + ": " + body;
    var tail := digits + ": " + body;
    assert b == LessonLead + tail;
    assert b[|LessonLead|..] == tail;
    assert OccursAt(tail, ": ", |digits|);
    assert tail[..|digits|] == digits;
    IndexAfterGap(tail, ": ", |digits|);
    DecimalRoundTrip(n);
  }

  /** A block's number reads back as `i + 1`: the text between "Lesson " and the first
      ": " is `str(i + 1)`. */
  lemma BlockNumber(i: nat, l: Lesson)
    ensures var b := LessonBlock(i, l);
      |LessonLead| <= |b| && b[..|LessonLead|] == LessonLead &&
      DecimalValue(Before(b[|LessonLead|..], ": ")) == i + 1
  {
    NumberReadsBack(i + 1, LessonBody(l));
  }

  // ---------------------------------------------------------------------------
  // Reviewing a module and a course.

  /** The prompt `review_module` sends for `module`. */
  function PromptFor(courseTitle: string, courseDescription: string, draft: ModuleDraft,
    audience: string, duration: string): ReviewPrompt
  {
    ReviewPrompt(courseTitle, courseDescription, draft.title, LessonsText(draft.lessons), audience, duration)
  }

  /** `review_module`: the lessons are laid out as text, the collaborator is asked once,
      and its reply is parsed onto the module; a failing call propagates its error. */
  function ModuleReview(courseTitle: string, courseDescription: string, draft: ModuleDraft,
    audience: string, duration: string, call: ReviewPrompt -> Outcome): (r: Result<ModuleDraft>)
  {
    match call(PromptFor(courseTitle, courseDescription, draft, audience, duration))
    case Fail(msg) => Failure(msg)
    case Ok(text) => Success(ParseReview(text, draft))
  }

  /** A review never renames the module or touches its lessons, whatever the reply. */
  lemma ReviewKeepsModule(courseTitle: string, courseDescription: string, draft: ModuleDraft,
    audience: string, duration: string, call: ReviewPrompt -> Outcome)
    ensures var r := ModuleReview(courseTitle, courseDescription, draft, audience, duration, call);
      var c := call(PromptFor(courseTitle, courseDescription, draft, audience, duration));
      (r.Failure? <==> c.Fail?) &&
      (r.Failure? ==> r.error == c.msg) &&
      (r.Success? ==> r.value.title == draft.title && r.value.lessons == draft.lessons)
  {
    var c := call(PromptFor(courseTitle, courseDescription, draft, audience, duration));
    if c.Ok? {
      if Contains(c.text, RevisedHeader) {
        ReviewWithRevised(c.text, draft);
      }
    }
  }

  /** `review_module` with its text-building loop. */
  method ReviewModule(courseTitle: string, courseDescription: string, draft: ModuleDraft,
    audience: string, duration: string, call: ReviewPrompt -> Outcome) returns (r: Result<ModuleDraft>)
    ensures r == ModuleReview(courseTitle, courseDescription, draft, audience, duration, call)
  {
    var lessonsContent := FormatLessons(draft.lessons);
    var prompt := ReviewPrompt(courseTitle, courseDescription, draft.title, lessonsContent, audience, duration);
    match call(prompt)
    case Fail(msg) =>
      r := Failure(msg);
    case Ok(text) =>
      r := Success(ParseReview(text, draft));
  }

  /** The module dictionary `review_course` hands to `review_module`. */
  function DraftOf(m: Module): ModuleDraft {
    ModuleDraft(m.title, m.lessons, None)
  }

  /** The prompt of the `i`-th module of `course`. */
  function CoursePrompt(course: CourseResponse, i: nat, audience: string, duration: string): ReviewPrompt
    requires i < |course.modules|
  {
    PromptFor(course.courseTitle, course.description, DraftOf(course.modules[i]), audience, duration)
  }

  /** `review_course`: every module is reviewed in turn, its `i`-th call answered by
      `call(i, ...)`, and rebuilt from the reviewed dictionary's title and lessons, so the
      `quality_review` is dropped and the course comes back equal to the one given; the
      first failing review propagates its error. */
  method ReviewCourse(course: CourseResponse, audience: string, duration: string,
    call: (nat, ReviewPrompt) -> Outcome) returns (r: Result<CourseResponse>)
    ensures r.Success? <==>
      forall i :: 0 <= i < |course.modules| ==> call(i, CoursePrompt(course, i, audience, duration)).Ok?
    ensures r.Success? ==> r.value == course
    ensures r.Failure? ==> exists k :: (0 <= k < |course.modules| &&
      call(k, CoursePrompt(course, k, audience, duration)).Fail? &&
      r.error == call(k, CoursePrompt(course, k, audience, duration)).msg &&
      forall j :: 0 <= j < k ==> call(j, CoursePrompt(course, j, audience, duration)).Ok?)
  {
    var improved: seq<Module> := [];
    var i := 0;
    while i < |course.modules|
      invariant 0 <= i <= |course.modules|
      invariant improved == course.modules[..i]
      invariant forall j :: 0 <= j < i ==> call(j, CoursePrompt(course, j, audience, duration)).Ok?
    {
      var draft := DraftOf(course.modules[i]);
      var ask := (p: ReviewPrompt) => call(i, p);
      var reviewed := ReviewModule(course.courseTitle, course.description, draft, audience, duration, ask);
      ReviewKeepsModule(course.courseTitle, course.description, draft, audience, duration, ask);
      assert ask(CoursePrompt(course, i, audience, duration)) == call(i, CoursePrompt(course, i, audience, duration));
      if reviewed.Failure? {
        r := Failure(reviewed.error);
        return;
      }
      var lessons := seq(|reviewed.value.lessons|, k requires 0 <= k < |reviewed.value.lessons| =>
        var l := reviewed.value.lessons[k]; Lesson(l.title, l.content, l.resources));
      assert lessons == reviewed.value.lessons;
      improved := improved + [Module(reviewed.value.title, lessons)];
      assert course.modules[..i + 1] == course.modules[..i] + [course.modules[i]];
      i := i + 1;
    }
    assert course.modules[..i] == course.modules;
    r := Success(CourseResponse(course.courseTitle, course.description, improved, course.references));
  }
}
