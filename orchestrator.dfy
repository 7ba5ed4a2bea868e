/** The course generation pipeline (app/agents/orchestrator.py): four stages, each of which
    rebuilds the agent state from the one before it, run research, structure, content and
    finalize in a fixed line; then the final state is checked and converted into the
    response. The collaborators' text-generation calls are parameters. */
module Orchestrator {
  import opened Wrappers
  import opened Course
  import ResearchAgent
  import StructureAgent
  import ContentAgent
  import Strings

  /** `content_data`: the lesson entries of each module, keyed by module title. */
  type ContentData = map<string, seq<Lesson>>

  /** `AgentState`: the brief and its options, what each stage has produced so far, and the
      error message of a stage that gave up. */
  datatype AgentState = AgentState(
    brief: string,
    targetAudience: Option<string>,
    courseDuration: Option<string>,
    researchData: Option<ResearchAgent.ResearchRecord>,
    courseStructure: Option<StructureAgent.CourseStructure>,
    contentData: Option<ContentData>,
    finalCourse: Option<CourseResponse>,
    error: Option<string>)

  /** The state `generate_course` starts from. */
  function Initial(brief: string, audience: Option<string>, duration: Option<string>): AgentState {
    AgentState(brief, audience, duration, None, None, None, None, None)
  }

  /** The state a stage returns when it gives up: the inputs, the fields it keeps, and
      the message. */
  function Stopped(s: AgentState, research: Option<ResearchAgent.ResearchRecord>,
    structure: Option<StructureAgent.CourseStructure>, msg: string): AgentState
  {
    AgentState(s.brief, s.targetAudience, s.courseDuration, research, structure, None, None, Some(msg))
  }

  /** The text-generation collaborators: the research call, the structure call, and the
      lesson call of module `i`, lesson `j`. */
  datatype Collaborators = Collaborators(
    research: ResearchAgent.ResearchPrompt -> Outcome,
    structure: StructureAgent.StructurePrompt -> Outcome,
    lesson: (nat, nat, ContentAgent.LessonPrompt) -> Outcome)

  const NoResearchMessage: string := "No research data available for creating course structure"
  const StructureErrorPrefix: string := "Structure creation error: "
  const NoStructureMessage: string := "No course structure available for generating content"
  const LessonErrorPrefix: string := "Error generating content: "
  const MissingStructureMessage: string := "Missing course structure for finalizing the course"
  const MissingContentMessage: string := "Missing content data for finalizing the course"
  const FailurePrefix: string := "Course generation failed: "
  const NoFinalMessage: string := "Course generation failed: No final course data available"

  // ---------------------------------------------------------------------------
  // The research and structure stages.

  /** `research_course_topic`: the research call never raises, since `research_topic` turns
      a failure into an error record; so the state always carries a research record and no
      error. */
  function ResearchStage(s: AgentState, call: ResearchAgent.ResearchPrompt -> Outcome): (r: AgentState)
    ensures r.brief == s.brief && r.targetAudience == s.targetAudience && r.courseDuration == s.courseDuration
    ensures r.researchData.Some? && r.error.None?
    ensures r.courseStructure.None? && r.contentData.None? && r.finalCourse.None?
  {
    var prompt := ResearchAgent.ResearchPrompt(s.brief, OrEmpty(s.targetAudience), OrEmpty(s.courseDuration));
    AgentState(s.brief, s.targetAudience, s.courseDuration,
      Some(ResearchAgent.ResearchTopic(call(prompt))), None, None, None, None)
  }

  /** The prompt `create_structure` sends for `s`'s research record. */
  function StructurePromptOf(s: AgentState, rd: ResearchAgent.ResearchRecord): StructureAgent.StructurePrompt {
    StructureAgent.StructurePrompt(s.brief, OrEmpty(s.targetAudience), OrEmpty(s.courseDuration),
      ResearchAgent.SummaryOf(rd), Strings.FormatList(ResearchAgent.KeyConceptsOf(rd)))
  }

  /** `create_course_structure`: without research data it stops; a failing structure call
      stops with the error; otherwise the parsed structure is added. Every record,
      including the research error record, is a non-empty dictionary and so counts as
      research data. */
  function StructureStage(s: AgentState, call: StructureAgent.StructurePrompt -> Outcome): AgentState {
    match s.researchData
    case None => Stopped(s, None, None, NoResearchMessage)
    case Some(rd) =>
      match StructureAgent.CreateStructure(s.brief, rd, OrEmpty(s.targetAudience), OrEmpty(s.courseDuration), call)
      case Failure(msg) => Stopped(s, s.researchData, None, StructureErrorPrefix + msg)
      case Success(cs) =>
        AgentState(s.brief, s.targetAudience, s.courseDuration, s.researchData, Some(cs), None, None, None)
  }

  /** The structure stage in its three outcomes. */
  lemma StructureStageSpec(s: AgentState, call: StructureAgent.StructurePrompt -> Outcome)
    ensures s.researchData.None? ==> StructureStage(s, call) == Stopped(s, None, None, NoResearchMessage)
    ensures s.researchData.Some? ==>
      var reply := call(StructurePromptOf(s, s.researchData.value));
      (reply.Fail? ==> StructureStage(s, call) == Stopped(s, s.researchData, None, StructureErrorPrefix + reply.msg)) &&
      (reply.Ok? ==> StructureStage(s, call) == AgentState(s.brief, s.targetAudience, s.courseDuration,
        s.researchData, Some(StructureAgent.ParseStructure(reply.text)), None, None, None))
  {
  }

  // ---------------------------------------------------------------------------
  // The content stage: the module by lesson fan-out.

  /** The entry lesson `j` of module `i` gets: the generated content and resources, or,
      when generating it raised, the error text and no resources. Its own call is
      `call(i, j, ...)`. */
  function LessonEntry(s: AgentState, cs: StructureAgent.CourseStructure, i: nat, j: nat,
    call: (nat, nat, ContentAgent.LessonPrompt) -> Outcome): Lesson
    requires i < |cs.modules| && j < |cs.modules[i].lessons|
  {
    var m := cs.modules[i];
    var title := m.lessons[j].title;
    match ContentAgent.GenerateLessonContent(cs.courseTitle, cs.courseDescription, m.title, title,
      s.researchData, OrEmpty(s.targetAudience), OrEmpty(s.courseDuration), p => call(i, j, p))
    case Success(lc) => Lesson(title, lc.content, lc.resources)
    case Failure(msg) => Lesson(title, LessonErrorPrefix + msg, [])
  }

  /** The entries of module `i`, one per lesson, in declared order. */
  function ModuleEntries(s: AgentState, cs: StructureAgent.CourseStructure, i: nat,
    call: (nat, nat, ContentAgent.LessonPrompt) -> Outcome): (r: seq<Lesson>)
    requires i < |cs.modules|
    ensures |r| == |cs.modules[i].lessons|
  {
    seq(|cs.modules[i].lessons|, j requires 0 <= j < |cs.modules[i].lessons| => LessonEntry(s, cs, i, j, call))
  }

  /** `content_data` after the first `n` modules: each module resets its title's list to
      its own entries. */
  function ContentFold(s: AgentState, cs: StructureAgent.CourseStructure, n: nat,
    call: (nat, nat, ContentAgent.LessonPrompt) -> Outcome): ContentData
    requires n <= |cs.modules|
  {
    if n == 0 then map[]
    else ContentFold(s, cs, n - 1, call)[cs.modules[n - 1].title := ModuleEntries(s, cs, n - 1, call)]
  }

  /** `generate_course_content`: without a structure it stops; otherwise `content_data`
      is added. */
  function ContentStage(s: AgentState, call: (nat, nat, ContentAgent.LessonPrompt) -> Outcome): AgentState {
    match s.courseStructure
    case None => Stopped(s, s.researchData, None, NoStructureMessage)
    case Some(cs) =>
      AgentState(s.brief, s.targetAudience, s.courseDuration, s.researchData, s.courseStructure,
        Some(ContentFold(s, cs, |cs.modules|, call)), None, None)
  }

  /** The body of the lesson loop: one lesson's content, failures caught. */
  method GenerateLesson(s: AgentState, cs: StructureAgent.CourseStructure, i: nat, j: nat,
    call: (nat, nat, ContentAgent.LessonPrompt) -> Outcome) returns (entry: Lesson)
    requires i < |cs.modules| && j < |cs.modules[i].lessons|
    ensures entry == LessonEntry(s, cs, i, j, call)
  {
    var moduleTitle := cs.modules[i].title;
    var lessonTitle := cs.modules[i].lessons[j].title;
    var generated := ContentAgent.GenerateLessonContent(cs.courseTitle, cs.courseDescription,
      moduleTitle, lessonTitle, s.researchData, OrEmpty(s.targetAudience), OrEmpty(s.courseDuration),
      p => call(i, j, p));
    if generated.Success? {
      entry := Lesson(lessonTitle, generated.value.content, generated.value.resources);
    } else {
      entry := Lesson(lessonTitle, LessonErrorPrefix + generated.error, []);
    }
  }

  /** One module of the fan-out: its title's list is reset and its lessons' entries are
      appended in order. */
  method GenerateModule(s: AgentState, cs: StructureAgent.CourseStructure, i: nat,
    call: (nat, nat, ContentAgent.LessonPrompt) -> Outcome, contentData: ContentData)
    returns (next: ContentData)
    requires i < |cs.modules|
    ensures next == contentData[cs.modules[i].title := ModuleEntries(s, cs, i, call)]
  {
    var moduleTitle := cs.modules[i].title;
    var lessons := cs.modules[i].lessons;
    ghost var entries := ModuleEntries(s, cs, i, call);
    next := contentData[moduleTitle := []];
    var j := 0;
    while j < |lessons|
      invariant 0 <= j <= |lessons|
      invariant next == contentData[moduleTitle := entries[..j]]
    {
      var entry := GenerateLesson(s, cs, i, j, call);
      assert entries[..j + 1] == entries[..j] + [entry];
      next := next[moduleTitle := next[moduleTitle] + [entry]];
      j := j + 1;
    }
    assert entries[..j] == entries;
  }

  /** `generate_course_content` with its nested loops over modules and lessons. */
  method GenerateCourseContent(s: AgentState, call: (nat, nat, ContentAgent.LessonPrompt) -> Outcome)
    returns (next: AgentState)
    ensures next == ContentStage(s, call)
  {
    if s.courseStructure.None? {
      next := Stopped(s, s.researchData, None, NoStructureMessage);
      return;
    }
    var cs := s.courseStructure.value;
    var contentData: ContentData := map[];
    var i := 0;
    while i < |cs.modules|
      invariant 0 <= i <= |cs.modules|
      invariant contentData == ContentFold(s, cs, i, call)
    {
      contentData := GenerateModule(s, cs, i, call, contentData);
      i := i + 1;
    }
    next := AgentState(s.brief, s.targetAudience, s.courseDuration, s.researchData, s.courseStructure,
      Some(contentData), None, None);
  }

  /** The keys of `content_data` are the titles of the modules processed. */
  lemma {:induction false} ContentKeys(s: AgentState, cs: StructureAgent.CourseStructure, n: nat,
    call: (nat, nat, ContentAgent.LessonPrompt) -> Outcome)
    requires n <= |cs.modules|
    ensures ContentFold(s, cs, n, call).Keys == set i | 0 <= i < n :: cs.modules[i].title
  {
    if n > 0 {
      ContentKeys(s, cs, n - 1, call);
      var before := set i | 0 <= i < n - 1 :: cs.modules[i].title;
      var after := set i | 0 <= i < n :: cs.modules[i].title;
      assert after == before + {cs.modules[n - 1].title} by {
        forall t | t in after ensures t in before + {cs.modules[n - 1].title} {
          var i :| 0 <= i < n && cs.modules[i].title == t;
          if i < n - 1 {
            assert t in before;
          }
        }
      }
    }
  }

  /** A title's list holds the entries of the last module carrying that title: an
      earlier module with the same title loses its lessons. */
  lemma {:induction false} LastModuleWins(s: AgentState, cs: StructureAgent.CourseStructure, n: nat,
    call: (nat, nat, ContentAgent.LessonPrompt) -> Outcome, i: nat)
    requires i < n <= |cs.modules|
    requires forall k :: i < k < n ==> cs.modules[k].title != cs.modules[i].title
    ensures cs.modules[i].title in ContentFold(s, cs, n, call)
    ensures ContentFold(s, cs, n, call)[cs.modules[i].title] == ModuleEntries(s, cs, i, call)
  {
    if i < n - 1 {
      LastModuleWins(s, cs, n - 1, call, i);
    }
  }

  /** Each module's list has one entry per lesson, in declared order, titled as the lesson;
      the entry holds the generated content and resources when generation succeeds, and the
      error text with no resources when it raises. */
  lemma EntrySpec(s: AgentState, cs: StructureAgent.CourseStructure, i: nat, j: nat,
    call: (nat, nat, ContentAgent.LessonPrompt) -> Outcome)
    requires i < |cs.modules| && j < |cs.modules[i].lessons|
    ensures var m := cs.modules[i];
      var g := ContentAgent.GenerateLessonContent(cs.courseTitle, cs.courseDescription, m.title,
        m.lessons[j].title, s.researchData, OrEmpty(s.targetAudience), OrEmpty(s.courseDuration),
        p => call(i, j, p));
      var e := ModuleEntries(s, cs, i, call)[j];
      e.title == m.lessons[j].title &&
      (g.Success? ==> e.content == g.value.content && e.resources == g.value.resources) &&
      (g.Failure? ==> e.content == LessonErrorPrefix + g.error && e.resources == [])
  {
  }

  /** `call` with the lesson call of module `i`, lesson `j` replaced by a failure. */
  function FailingAt(call: (nat, nat, ContentAgent.LessonPrompt) -> Outcome, i: nat, j: nat, msg: string):
    (nat, nat, ContentAgent.LessonPrompt) -> Outcome
  {
    (i': nat, j': nat, p: ContentAgent.LessonPrompt) => if i' == i && j' == j then Fail(msg) else call(i', j', p)
  }

  /** Per-lesson fault capture: when one lesson's call fails, that lesson's entry is the
      error entry and every other lesson's entry is what it would have been otherwise. */
  lemma FailureIsolated(s: AgentState, cs: StructureAgent.CourseStructure,
    call: (nat, nat, ContentAgent.LessonPrompt) -> Outcome, i: nat, j: nat, msg: string)
    requires i < |cs.modules| && j < |cs.modules[i].lessons| && s.researchData.Some?
    ensures LessonEntry(s, cs, i, j, FailingAt(call, i, j, msg)) ==
      Lesson(cs.modules[i].lessons[j].title, LessonErrorPrefix + msg, [])
    ensures forall i', j' :: 0 <= i' < |cs.modules| && 0 <= j' < |cs.modules[i'].lessons| && (i' != i || j' != j) ==>
      LessonEntry(s, cs, i', j', FailingAt(call, i, j, msg)) == LessonEntry(s, cs, i', j', call)
  {
    var failing := FailingAt(call, i, j, msg);
    forall i', j' | 0 <= i' < |cs.modules| && 0 <= j' < |cs.modules[i'].lessons| && (i' != i || j' != j)
      ensures LessonEntry(s, cs, i', j', failing) == LessonEntry(s, cs, i', j', call)
    {
      var m := cs.modules[i'];
      var p := ContentAgent.LessonPrompt(cs.courseTitle, cs.courseDescription, m.title, m.lessons[j'].title,
        OrEmpty(s.targetAudience), OrEmpty(s.courseDuration), ContentAgent.InfoOf(s.researchData.value));
      assert failing(i', j', p) == call(i', j', p);
    }
  }

  /** A structure with no modules gives an empty `content_data`. */
  lemma NoModulesNoContent(s: AgentState, call: (nat, nat, ContentAgent.LessonPrompt) -> Outcome)
    requires s.courseStructure.Some? && s.courseStructure.value.modules == []
    ensures ContentStage(s, call).contentData == Some(map[])
  {
  }

  // ---------------------------------------------------------------------------
  // Finalize.

  /** `content_data.get(title, [])`, each entry copied field by field. */
  function LessonsFor(content: ContentData, title: string): seq<Lesson> {
    if title in content then content[title] else []
  }

  /** One final module per structure module, same titles, same order. */
  function FinalModules(cs: StructureAgent.CourseStructure, content: ContentData): (r: seq<Module>)
    ensures |r| == |cs.modules|
  {
    seq(|cs.modules|, i requires 0 <= i < |cs.modules| =>
      Module(cs.modules[i].title, LessonsFor(content, cs.modules[i].title)))
  }

  /** `research_data["resources"]` when the record has that key, otherwise []. */
  function References(research: Option<ResearchAgent.ResearchRecord>): seq<string> {
    if research.Some? && research.value.Parsed? then research.value.data.resources else []
  }

  /** `finalize_course`: without a structure, or with a missing or empty `content_data`,
      it stops; otherwise it compiles the final course. */
  function FinalizeStage(s: AgentState): AgentState {
    match s.courseStructure
    case None => Stopped(s, s.researchData, None, MissingStructureMessage)
    case Some(cs) =>
      if s.contentData.None? || s.contentData.value == map[] then
        Stopped(s, s.researchData, s.courseStructure, MissingContentMessage)
      else
        var course := CourseResponse(cs.courseTitle, cs.courseDescription,
          FinalModules(cs, s.contentData.value), References(s.researchData));
        AgentState(s.brief, s.targetAudience, s.courseDuration, s.researchData, s.courseStructure,
          s.contentData, Some(course), None)
  }

  /** The lessons of one final module, each copied field by field. */
  method CopyLessons(entries: seq<Lesson>) returns (lessons: seq<Lesson>)
    ensures lessons == entries
  {
    lessons := [];
    var k := 0;
    while k < |entries|
      invariant 0 <= k <= |entries|
      invariant lessons == entries[..k]
    {
      var e := entries[k];
      lessons := lessons + [Lesson(e.title, e.content, e.resources)];
      assert entries[..k + 1] == entries[..k] + [e];
      k := k + 1;
    }
    assert entries[..k] == entries;
  }

  /** `finalize_course` with its loops over the modules and their lessons. */
  method FinalizeCourse(s: AgentState) returns (next: AgentState)
    ensures next == FinalizeStage(s)
  {
    if s.courseStructure.None? {
      next := Stopped(s, s.researchData, None, MissingStructureMessage);
      return;
    }
    if s.contentData.None? || s.contentData.value == map[] {
      next := Stopped(s, s.researchData, s.courseStructure, MissingContentMessage);
      return;
    }
    var cs := s.courseStructure.value;
    var content := s.contentData.value;
    ghost var target := FinalModules(cs, content);
    var modules: seq<Module> := [];
    var i := 0;
    while i < |cs.modules|
      invariant 0 <= i <= |cs.modules|
      invariant modules == target[..i]
    {
      var moduleTitle := cs.modules[i].title;
      var entries := if moduleTitle in content then content[moduleTitle] else [];
      var lessons := CopyLessons(entries);
      assert target[..i + 1] == target[..i] + [Module(moduleTitle, lessons)];
      modules := modules + [Module(moduleTitle, lessons)];
      i := i + 1;
    }
    assert target[..i] == target;
    var references: seq<string> := [];
    if s.researchData.Some? && s.researchData.value.Parsed? {
      references := s.researchData.value.data.resources;
    }
    var course := CourseResponse(cs.courseTitle, cs.courseDescription, modules, references);
    next := AgentState(s.brief, s.targetAudience, s.courseDuration, s.researchData, s.courseStructure,
      s.contentData, Some(course), None);
  }

  /** The final course has one module per structure module, with the same titles in the
      same order; a module's lessons are those filed under its title, none when the title
      is missing; the title and description come from the structure, and the references
      are the research resources when the research record has them. */
  lemma FinalizeSpec(s: AgentState)
    requires s.courseStructure.Some? && s.contentData.Some? && s.contentData.value != map[]
    ensures var f := FinalizeStage(s); var cs := s.courseStructure.value; var c := s.contentData.value;
      f.error.None? && f.finalCourse.Some? &&
      f.finalCourse.value.courseTitle == cs.courseTitle &&
      f.finalCourse.value.description == cs.courseDescription &&
      |f.finalCourse.value.modules| == |cs.modules| &&
      (forall i :: 0 <= i < |cs.modules| ==> f.finalCourse.value.modules[i].title == cs.modules[i].title) &&
      (forall i :: 0 <= i < |cs.modules| && cs.modules[i].title in c ==>
        f.finalCourse.value.modules[i].lessons == c[cs.modules[i].title]) &&
      (forall i :: 0 <= i < |cs.modules| && cs.modules[i].title !in c ==>
        f.finalCourse.value.modules[i].lessons == []) &&
      (s.researchData.Some? && s.researchData.value.Parsed? ==>
        f.finalCourse.value.references == s.researchData.value.data.resources) &&
      (s.researchData.None? || s.researchData.value.ResearchFailed? ==> f.finalCourse.value.references == [])
  {
  }

  /** Without a structure the content stage stops with its fixed message, keeps the
      research record and adds nothing. */
  lemma ContentPrerequisite(s: AgentState, call: (nat, nat, ContentAgent.LessonPrompt) -> Outcome)
    requires s.courseStructure.None?
    ensures ContentStage(s, call) == Stopped(s, s.researchData, None, NoStructureMessage)
    ensures ContentStage(s, call).contentData.None? && ContentStage(s, call).finalCourse.None?
  {
  }

  /** Finalize stops without a structure, keeping the research record, and with a missing
      or empty `content_data`, keeping the research record and the structure; an empty
      dictionary counts as missing. */
  lemma FinalizePrerequisites(s: AgentState)
    ensures s.courseStructure.None? ==>
      FinalizeStage(s) == Stopped(s, s.researchData, None, MissingStructureMessage)
    ensures s.courseStructure.Some? && (s.contentData.None? || s.contentData == Some(map[])) ==>
      FinalizeStage(s) == Stopped(s, s.researchData, s.courseStructure, MissingContentMessage)
  {
  }

  // ---------------------------------------------------------------------------
  // The router and the pipeline.

  /** Python truthiness of an optional string: present and non-empty. */
  predicate Truthy(x: Option<string>) {
    x.Some? && x.value != ""
  }

  /** `should_end`: "end" once an error or a final course is set, otherwise "continue". */
  function ShouldEnd(s: AgentState): string {
    if Truthy(s.error) then "end"
    else if s.finalCourse.Some? then "end"
    else "continue"
  }

  /** Finalize always sets an error or the final course, so the router ends the run
      after the single pass through finalize and the loop back to it never fires. */
  lemma FinalizeEnds(s: AgentState)
    ensures Truthy(FinalizeStage(s).error) || FinalizeStage(s).finalCourse.Some?
    ensures ShouldEnd(FinalizeStage(s)) == "end"
  {
  }

  /** The graph's run: research, structure, content and finalize, each edge taken
      unconditionally. */
  function Run(brief: string, audience: Option<string>, duration: Option<string>, c: Collaborators): AgentState {
    var s1 := ResearchStage(Initial(brief, audience, duration), c.research);
    var s2 := StructureStage(s1, c.structure);
    var s3 := ContentStage(s2, c.lesson);
    FinalizeStage(s3)
  }

  /** The checks of `generate_course` on the final state: an error is raised with the
      failure prefix, a missing final course with its own message; otherwise the final
      course is the response. */
  function Respond(final: AgentState): Result<CourseResponse> {
    if Truthy(final.error) then Failure(FailurePrefix + final.error.value)
    else if final.finalCourse.None? then Failure(NoFinalMessage)
    else Success(final.finalCourse.value)
  }

  /** The conversion loop of `generate_course`: the response has the final course's
      modules, lessons and references, in order and unchanged. */
  method ConvertCourse(data: CourseResponse) returns (response: CourseResponse)
    ensures response == data
  {
    var modules: seq<Module> := [];
    var i := 0;
    while i < |data.modules|
      invariant 0 <= i <= |data.modules|
      invariant modules == data.modules[..i]
    {
      var m := data.modules[i];
      var lessons := CopyLessons(m.lessons);
      modules := modules + [Module(m.title, lessons)];
      assert data.modules[..i + 1] == data.modules[..i] + [m];
      i := i + 1;
    }
    assert data.modules[..i] == data.modules;
    response := CourseResponse(data.courseTitle, data.description, modules, data.references);
  }

  /** `generate_course`: run the stages, check the final state and convert it. */
  method GenerateCourse(brief: string, audience: Option<string>, duration: Option<string>, c: Collaborators)
    returns (r: Result<CourseResponse>)
    ensures r == Respond(Run(brief, audience, duration, c))
  {
    var s0 := Initial(brief, audience, duration);
    var s1 := ResearchStage(s0, c.research);
    var s2 := StructureStage(s1, c.structure);
    var s3 := GenerateCourseContent(s2, c.lesson);
    var s4 := FinalizeCourse(s3);
    if Truthy(s4.error) {
      r := Failure(FailurePrefix + s4.error.value);
      return;
    }
    if s4.finalCourse.None? {
      r := Failure(NoFinalMessage);
      return;
    }
    var response := ConvertCourse(s4.finalCourse.value);
    r := Success(response);
  }

  // ---------------------------------------------------------------------------
  // What the pipeline promises.

  /** The research stage's prompt. */
  function ResearchPromptOf(brief: string, audience: Option<string>, duration: Option<string>): ResearchAgent.ResearchPrompt {
    ResearchAgent.ResearchPrompt(brief, OrEmpty(audience), OrEmpty(duration))
  }

  /** The state after research and structure. */
  function Structured(brief: string, audience: Option<string>, duration: Option<string>, c: Collaborators): AgentState {
    StructureStage(ResearchStage(Initial(brief, audience, duration), c.research), c.structure)
  }

  /** A research failure is swallowed: the run goes on with the error record, whose
      summary and key concepts are empty, in the structure prompt. */
  lemma ResearchFailureSwallowed(brief: string, audience: Option<string>, duration: Option<string>, c: Collaborators)
    requires c.research(ResearchPromptOf(brief, audience, duration)).Fail?
    ensures var s1 := ResearchStage(Initial(brief, audience, duration), c.research);
      var msg := c.research(ResearchPromptOf(brief, audience, duration)).msg;
      s1.researchData == Some(ResearchAgent.ResearchFailed("Research failed: " + msg)) &&
      s1.error.None? &&
      StructurePromptOf(s1, s1.researchData.value) ==
        StructureAgent.StructurePrompt(brief, OrEmpty(audience), OrEmpty(duration), "", "")
  {
    Strings.FormatListEmpty();
  }

  /** The run succeeds exactly when the structure call succeeds and its reply gives at
      least one module; nothing else can stop it. */
  lemma SuccessIff(brief: string, audience: Option<string>, duration: Option<string>, c: Collaborators)
    ensures var s1 := ResearchStage(Initial(brief, audience, duration), c.research);
      var reply := c.structure(StructurePromptOf(s1, s1.researchData.value));
      Respond(Run(brief, audience, duration, c)).Success? <==>
        reply.Ok? && |StructureAgent.ParseStructure(reply.text).modules| > 0
  {
    var s1 := ResearchStage(Initial(brief, audience, duration), c.research);
    var s2 := StructureStage(s1, c.structure);
    StructureStageSpec(s1, c.structure);
    var s3 := ContentStage(s2, c.lesson);
    if s2.courseStructure.Some? {
      var cs := s2.courseStructure.value;
      ContentKeys(s2, cs, |cs.modules|, c.lesson);
      if |cs.modules| > 0 {
        assert cs.modules[0].title in ContentFold(s2, cs, |cs.modules|, c.lesson).Keys;
      }
    }
  }

  /** A failing structure call does not end the run: content and finalize still run, and
      the error the caller sees is finalize's missing-structure message, not the
      structure error. */
  lemma StructureFailureMasked(brief: string, audience: Option<string>, duration: Option<string>, c: Collaborators)
    requires var s1 := ResearchStage(Initial(brief, audience, duration), c.research);
      c.structure(StructurePromptOf(s1, s1.researchData.value)).Fail?
    ensures Respond(Run(brief, audience, duration, c)) == Failure(FailurePrefix + MissingStructureMessage)
  {
    var s1 := ResearchStage(Initial(brief, audience, duration), c.research);
    StructureStageSpec(s1, c.structure);
  }

  /** A structure with no modules leaves `content_data` empty, and finalize rejects it. */
  lemma NoModulesFails(brief: string, audience: Option<string>, duration: Option<string>, c: Collaborators)
    requires var s1 := ResearchStage(Initial(brief, audience, duration), c.research);
      var reply := c.structure(StructurePromptOf(s1, s1.researchData.value));
      reply.Ok? && StructureAgent.ParseStructure(reply.text).modules == []
    ensures Respond(Run(brief, audience, duration, c)) == Failure(FailurePrefix + MissingContentMessage)
  {
    var s1 := ResearchStage(Initial(brief, audience, duration), c.research);
    StructureStageSpec(s1, c.structure);
  }

  /** The missing-final-course message is never raised: finalize always sets one of the
      two fields `generate_course` checks. */
  lemma NeverNoFinal(brief: string, audience: Option<string>, duration: Option<string>, c: Collaborators)
    ensures Respond(Run(brief, audience, duration, c)) != Failure(NoFinalMessage)
  {
    FinalizeEnds(ContentStage(Structured(brief, audience, duration, c), c.lesson));
  }

  /** On success the response is the course finalize compiled: the structure's title,
      description and modules in order, each with the entries filed under its title, and
      the research resources as references. */
  lemma SuccessShape(brief: string, audience: Option<string>, duration: Option<string>, c: Collaborators)
    requires Respond(Run(brief, audience, duration, c)).Success?
    ensures var s2 := Structured(brief, audience, duration, c);
      var cs := s2.courseStructure.value;
      var s3 := ContentStage(s2, c.lesson);
      s2.courseStructure.Some? && s3.contentData.Some? &&
      Respond(Run(brief, audience, duration, c)).value == CourseResponse(cs.courseTitle, cs.courseDescription,
        FinalModules(cs, ContentFold(s2, cs, |cs.modules|, c.lesson)), References(s2.researchData))
  {
  }
}
