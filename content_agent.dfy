/** The content stage's collaborator call for one lesson and the parser that splits its
    reply into lesson text and resources (app/agents/content_agent.py). */
module ContentAgent {
  import opened Wrappers
  import opened Strings
  import ResearchAgent

  const ContentMarker: string := "CONTENT:"
  const ResourcesMarker: string := "RESOURCES:"

  /** The text Python gives an `AttributeError` raised by `.get` on `None`. */
  const NoneGetError: string := "'NoneType' object has no attribute 'get'"

  /** What `_parse_content_result` returns: both keys are always present. */
  datatype LessonContent = LessonContent(content: string, resources: seq<string>)

  /** `_parse_content_result`. With both markers present the reply is cut at every
      "RESOURCES:": the first piece, with "CONTENT:" removed and stripped, is the lesson
      text, and the stripped second piece's trimmed non-empty lines are the resources.
      Otherwise the whole reply is the lesson text and there are no resources. */
  function ParseContent(result: string): LessonContent {
    if Contains(result, ContentMarker) && Contains(result, ResourcesMarker) then
      var parts := Split(result, ResourcesMarker);
      if |parts| >= 2 then
        LessonContent(Strip(Replace(parts[0], ContentMarker, "")), TrimmedLines(Strip(parts[1])))
      else
        LessonContent("", [])
    else
      LessonContent(result, [])
  }

  /** With both markers, the lesson text is what precedes the first "RESOURCES:", with
      every "CONTENT:" removed, stripped; and the resources are the trimmed non-empty lines
      of what lies between the first and the second "RESOURCES:" (or the end), so text
      after a second "RESOURCES:" is discarded. */
  lemma ParseBothMarkers(result: string)
    requires Contains(result, ContentMarker) && Contains(result, ResourcesMarker)
    ensures ParseContent(result).content ==
      Strip(Replace(Before(result, ResourcesMarker), ContentMarker, ""))
    ensures ParseContent(result).resources ==
      TrimmedLines(Strip(Before(After(result, ResourcesMarker), ResourcesMarker)))
  {
    SplitFirst(result, ResourcesMarker);
    SplitFirst(After(result, ResourcesMarker), ResourcesMarker);
    var parts := Split(result, ResourcesMarker);
    assert parts[1] == parts[1..][0];
  }

  /** Without one of the markers the reply is kept verbatim and there are no resources. */
  lemma ParseFallback(result: string)
    requires !Contains(result, ContentMarker) || !Contains(result, ResourcesMarker)
    ensures ParseContent(result) == LessonContent(result, [])
  {
  }

  /** With both markers the lesson text is stripped and every resource is a trimmed,
      non-empty line. */
  lemma ParseContentClean(result: string)
    requires Contains(result, ContentMarker) && Contains(result, ResourcesMarker)
    ensures Stripped(ParseContent(result).content)
    ensures forall i :: 0 <= i < |ParseContent(result).resources| ==>
      var x := ParseContent(result).resources[i]; x != "" && Stripped(x) && '\n' !in x
  {
    ParseBothMarkers(result);
    StripSpec(Replace(Before(result, ResourcesMarker), ContentMarker, ""));
    TrimmedLinesClean(Strip(Before(After(result, ResourcesMarker), ResourcesMarker)));
  }

  /** What the research information of the lesson prompt interpolates: the summary, the
      key concepts as a bullet list, and the insights, each defaulting when absent. */
  datatype ResearchInfo = ResearchInfo(summary: string, keyConcepts: string, insights: string)

  /** The variables the lesson prompt is filled with. */
  datatype LessonPrompt = LessonPrompt(
    courseTitle: string,
    courseDescription: string,
    moduleTitle: string,
    lessonTitle: string,
    audience: string,
    duration: string,
    researchInfo: ResearchInfo)

  /** The research information block built from the research record. */
  function InfoOf(rd: ResearchAgent.ResearchRecord): (r: ResearchInfo)
    ensures rd.ResearchFailed? ==> r == ResearchInfo("", "", "")
    ensures rd.Parsed? ==>
      r == ResearchInfo(rd.data.summary, FormatList(rd.data.keyConcepts), rd.data.insights)
  {
    FormatListEmpty();
    ResearchInfo(ResearchAgent.SummaryOf(rd), FormatList(ResearchAgent.KeyConceptsOf(rd)),
      ResearchAgent.InsightsOf(rd))
  }

  /** `generate_lesson_content`: without a research record the `.get` calls raise; a
      failing collaborator call propagates its error; otherwise its reply is parsed. */
  function GenerateLessonContent(
    courseTitle: string, courseDescription: string, moduleTitle: string, lessonTitle: string,
    researchData: Option<ResearchAgent.ResearchRecord>, audience: string, duration: string,
    call: LessonPrompt -> Outcome): (r: Result<LessonContent>)
    ensures researchData.None? ==> r == Failure(NoneGetError)
    ensures researchData.Some? ==>
      var p := LessonPrompt(courseTitle, courseDescription, moduleTitle, lessonTitle,
        audience, duration, InfoOf(researchData.value));
      (call(p).Fail? ==> r == Failure(call(p).msg)) &&
      (call(p).Ok? ==> r == Success(ParseContent(call(p).text)))
  {
    match researchData
    case None => Failure(NoneGetError)
    case Some(rd) =>
      var prompt := LessonPrompt(courseTitle, courseDescription, moduleTitle, lessonTitle,
        audience, duration, InfoOf(rd));
      match call(prompt)
      case Fail(msg) => Failure(msg)
      case Ok(text) => Success(ParseContent(text))
  }

  const ExampleReply: string := "CONTENT:\nHello\n\nRESOURCES:\nA\nB"

  /** The example reply has both markers, and its first "RESOURCES:" comes right after
      the lesson part. */
  lemma ExampleMarkers()
    ensures Contains(ExampleReply, ContentMarker) && Contains(ExampleReply, ResourcesMarker)
    ensures Before(ExampleReply, ResourcesMarker) == "CONTENT:\nHello\n\n"
    ensures After(ExampleReply, ResourcesMarker) == "\nA\nB"
  {
    var s := ExampleReply;
    assert StartsWith(s, ContentMarker);
    assert OccursAt(s, ResourcesMarker, 16);
    assert s[..16] == "CONTENT:\nHello\n\n";
    IndexAfterGap(s, ResourcesMarker, 16);
  }

  /** Removing the example's marker leaves the lesson line between newlines. */
  lemma ExampleUnmarked()
    ensures Replace("CONTENT:\nHello\n\n", ContentMarker, "") == "\nHello\n\n"
  {
    var head, body := "CONTENT:\nHello\n\n", "\nHello\n\n";
    assert StartsWith(head, ContentMarker);
    assert head[8..] == body;
    FirstCharAbsent(body, ContentMarker);
  }

  /** Stripping the lesson line drops the newlines around it. */
  lemma ExampleStripped()
    ensures Strip("\nHello\n\n") == "Hello"
  {
    var body := "\nHello\n\n";
    NewlineIsSpace();
    NotSpace('H');
    NotSpace('o');
    assert body[1..] == "Hello\n\n";
    assert LStrip(body) == "Hello\n\n";
    assert "Hello\n\n"[..6] == "Hello\n";
    assert "Hello\n"[..5] == "Hello";
    assert RStrip("Hello\n\n") == "Hello";
  }

  /** The example's resources part, stripped, is its two lines. */
  lemma ExampleResourcesText()
    ensures Strip(Before("\nA\nB", ResourcesMarker)) == "A\nB"
  {
    var tail, lines := "\nA\nB", "A\nB";
    FirstCharAbsent(tail, ResourcesMarker);
    NewlineIsSpace();
    NotSpace('A');
    NotSpace('B');
    assert tail[1..] == lines;
    assert LStrip(tail) == lines;
    assert RStrip(lines) == lines;
  }

  /** The two lines are the resources "A" and "B". */
  lemma ExampleResources()
    ensures TrimmedLines("A\nB") == ["A", "B"]
  {
    var lines := "A\nB";
    NotSpace('A');
    NotSpace('B');
    assert OccursAt(lines, "\n", 1);
    IndexAfterGap(lines, "\n", 1);
    assert lines[..1] == "A" && lines[2..] == "B";
    FirstCharAbsent("B", "\n");
    assert Split("B", "\n") == ["B"];
    assert Split(lines, "\n") == ["A", "B"];
    assert StripAll(["A", "B"]) == ["A", "B"];
  }

  /** The reply "CONTENT:\nHello\n\nRESOURCES:\nA\nB" parses to the text "Hello" and the
      resources "A" and "B". */
  lemma WorkedExample()
    ensures ParseContent(ExampleReply) == LessonContent("Hello", ["A", "B"])
  {
    ExampleMarkers();
    ParseBothMarkers(ExampleReply);
    ExampleUnmarked();
    ExampleStripped();
    ExampleResourcesText();
    ExampleResources();
  }
}
